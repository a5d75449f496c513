/** The user store (IdentityUserStore.cs): the gateway between user objects
    and the users collection. Every operation first throws if cancellation
    was requested, then if the store was disposed, then if a required
    argument is missing. Lookups read the collection; `Create`, `Update` and
    `Delete` write it; every other setter changes only the user object, which
    reaches the collection on the next `Update`. */
module IdentityUserStores {
  import opened Common
  import opened StringExtensions
  import opened Sequences
  import opened ContactRecords
  import opened UserEmails
  import opened UserMobiles
  import opened Credentials
  import opened IdentityRoles
  import opened DocumentCollections
  import opened IdentityUsers

  /** The `_id` of a user document. */
  function DocumentId(d: UserDocument): Option<string> {
    d.id
  }

  // The filters the store queries the users collection with.

  /** `Id == id`. */
  function WithId(id: Option<string>): UserDocument -> bool {
    (d: UserDocument) => d.id == id
  }

  /** `Id == id && DeletedOn == null`. */
  function ActiveWithId(id: Option<string>): UserDocument -> bool {
    (d: UserDocument) => d.id == id && Active(d)
  }

  /** `NormalizedUserName == name && DeletedOn == null`. */
  function ActiveWithNormalizedUserName(name: string): UserDocument -> bool {
    (d: UserDocument) => d.normalizedUserName == Some(name) && Active(d)
  }

  /** `Email.NormalizedValue == email`, with no soft-delete condition. */
  function WithNormalizedEmail(email: string): UserDocument -> bool {
    (d: UserDocument) => d.email.Some? && d.email.value.normalizedValue == Some(email)
  }

  /** `DeletedOn == null` and some login has this provider and key. */
  function ActiveWithLogin(loginProvider: string, providerKey: string): UserDocument -> bool {
    (d: UserDocument) => Active(d) && Any(d.logins, LoginKey(loginProvider, providerKey))
  }

  /** Some role has exactly this normalized name, with no soft-delete condition. */
  function InRoleNormalized(roleName: string): UserDocument -> bool {
    (d: UserDocument) => Any(d.roles, (r: Role) => r.normalizedName == Some(roleName))
  }

  /** `string.Equals(role.Name, roleName, CurrentCultureIgnoreCase)`: the
      current culture is given by its case folding `fold`; a null name equals
      no role name. */
  function NameIgnoringCase(fold: string -> string, roleName: string): Role -> bool {
    (r: Role) => r.name.Some? && fold(r.name.value) == fold(roleName)
  }

  /** NullReferenceException when dereferencing a user's missing e-mail
      record. */
  function NeedEmail(user: IdentityUser?): (o: Outcome)
    reads user
    ensures o.Fail? <==> user != null && user.email == null
    ensures o.Fail? ==> o.error == NullReference
  {
    if user != null && user.email == null then Fail(NullReference) else Pass
  }

  /** NullReferenceException when dereferencing a user's missing phone
      record. */
  function NeedPhone(user: IdentityUser?): (o: Outcome)
    reads user
    ensures o.Fail? <==> user != null && user.phoneNumber == null
    ensures o.Fail? ==> o.error == NullReference
  {
    if user != null && user.phoneNumber == null then Fail(NullReference) else Pass
  }

  /** The first active user with this Id: `FindByIdAsync`'s query. */
  function FindActiveById(docs: seq<UserDocument>, userId: string): Option<UserDocument> {
    FirstWhere(docs, ActiveWithId(Some(userId)))
  }

  /** The first user with this normalized e-mail: `FindByEmailAsync`'s query. */
  function FindFirstByEmail(docs: seq<UserDocument>, email: string): Option<UserDocument> {
    FirstWhere(docs, WithNormalizedEmail(email))
  }

  /** `UpdateAsync`'s write: replace the active document with the user's Id. */
  function ReplaceActive(docs: seq<UserDocument>, d: UserDocument): WriteResult<UserDocument> {
    ReplaceOne(docs, ActiveWithId(d.id), d)
  }

  /** `DeleteAsync`'s write: set `DeletedOn` on the document with the Id,
      deleted or not. */
  function SetDeletedOn(docs: seq<UserDocument>, id: Option<string>, deletedOn: Option<Time>): WriteResult<UserDocument> {
    UpdateOne(docs, WithId(id), (d: UserDocument) => d.(deletedOn := deletedOn))
  }

  /** `RemoveFromRoleAsync` as written: it removes from `user.Roles` while
      enumerating a lazy `Where` over it, so the first matching role is
      removed and the next step of the enumeration throws
      InvalidOperationException ("collection was modified"). With no match
      the roles are unchanged and nothing is thrown. */
  function RemoveFromRoleAsWritten(roles: seq<Role>, matches: Role -> bool): (r: (seq<Role>, Outcome))
    ensures !Any(roles, matches) ==> r == (roles, Pass)
    ensures Any(roles, matches) ==> r.1 == Fail(InvalidOperation)
    ensures Any(roles, matches) ==> |r.0| == |roles| - 1
    ensures Any(roles, matches) ==> multiset(r.0) + multiset{FirstWhere(roles, matches).value} == multiset(roles)
  {
    if Any(roles, matches) then (RemoveFirst(roles, matches), Fail(InvalidOperation)) else (roles, Pass)
  }

  /** What `RemoveFromRoleAsync` evidently intends: every matching role is
      removed and nothing is thrown. */
  function RemoveFromRoleIntended(roles: seq<Role>, matches: Role -> bool): (r: seq<Role>)
    ensures !Any(r, matches)
    ensures forall i :: 0 <= i < |roles| && !matches(roles[i]) ==> roles[i] in r
    ensures forall i :: 0 <= i < |r| ==> r[i] in roles
  {
    var r := Where(roles, (x: Role) => !matches(x));
    assert forall i :: 0 <= i < |r| ==> !matches(r[i]);
    r
  }

  /** A user holding a role named exactly `roleName`: the written removal
      throws, and the intended one leaves no matching role and strictly fewer
      roles. */
  lemma RemoveFromRoleThrowsOnFirstMatch(fold: string -> string, roles: seq<Role>, roleName: string, i: nat)
    requires i < |roles| && roles[i].name == Some(roleName)
    ensures RemoveFromRoleAsWritten(roles, NameIgnoringCase(fold, roleName)).1 == Fail(InvalidOperation)
    ensures var r := RemoveFromRoleIntended(roles, NameIgnoringCase(fold, roleName));
      !Any(r, NameIgnoringCase(fold, roleName)) && |r| < |roles|
  {
    var p := NameIgnoringCase(fold, roleName);
    assert p(roles[i]);
    var keep := (x: Role) => !p(x);
    var r := Where(roles, keep);
    WhereCounts(roles, keep);
    assert roles[i] !in r;
    var gone := multiset(roles) - multiset(r);
    assert multiset(roles) == multiset(r) + gone;
    assert roles[i] in gone;
  }

  /** `HasPasswordAsync` as written: true when the hash is null, empty or
      white space — the opposite of what it documents. */
  function HasPasswordAsWritten(passwordHash: Option<string>): (r: bool)
    ensures r <==> passwordHash.None? || forall i :: 0 <= i < |passwordHash.value| ==> IsWhiteSpace(passwordHash.value[i])
  {
    IsEmpty(passwordHash)
  }

  /** What `HasPasswordAsync` documents: true when a password hash is set. */
  function HasPasswordIntended(passwordHash: Option<string>): (r: bool)
    ensures r <==> passwordHash.Some? && exists i :: 0 <= i < |passwordHash.value| && !IsWhiteSpace(passwordHash.value[i])
  {
    IsNotEmpty(passwordHash)
  }

  /** After the store accepted a password hash, the written check reports no
      password and the intended one reports a password. */
  lemma HasPasswordInverted(passwordHash: Option<string>)
    requires ThrowIfStringEmpty(passwordHash).Pass?
    ensures !HasPasswordAsWritten(passwordHash) && HasPasswordIntended(passwordHash)
  {
  }

  /** `SetPhoneNumberConfirmedAsync` as written: the confirmation time
      becomes `now` whatever `confirmed` is. */
  function PhoneConfirmedAsWritten(phone: ContactDocument, confirmed: bool, now: Time): (r: ContactDocument)
    ensures r.confirmedOn == Some(now)
    ensures r.(confirmedOn := phone.confirmedOn) == phone
  {
    phone.(confirmedOn := Some(now))
  }

  /** What it evidently intends, as `SetEmailConfirmedAsync` does: the time
      when confirming, no time when unconfirming. */
  function PhoneConfirmedIntended(phone: ContactDocument, confirmed: bool, now: Time): (r: ContactDocument)
    ensures r.confirmedOn.Some? <==> confirmed
    ensures confirmed ==> r.confirmedOn == Some(now)
    ensures r.(confirmedOn := phone.confirmedOn) == phone
  {
    phone.(confirmedOn := if confirmed then Some(now) else Option.None)
  }

  /** Unconfirming a phone number leaves a confirmation time behind as
      written, and none as intended. */
  lemma PhoneUnconfirmKeepsTime(phone: ContactDocument, now: Time)
    ensures PhoneConfirmedAsWritten(phone, false, now).confirmedOn.Some?
    ensures PhoneConfirmedIntended(phone, false, now).confirmedOn.None?
  {
  }

  class UserStore {
    var disposed: bool
    /** The users collection. */
    var users: seq<UserDocument>
    /** The roles collection, which `AddToRoleAsync` reads. */
    var roles: seq<Role>
    /** The current culture's case folding, for case-insensitive names. */
    const fold: string -> string

    /** The users collection's `_id` index keeps Ids unique. */
    ghost predicate Valid()
      reads this
    {
      UniqueKeys(users, DocumentId)
    }

    /** `UserStore(context)`: a store over the context's collections. */
    constructor (users: seq<UserDocument>, roles: seq<Role>, fold: string -> string)
      requires UniqueKeys(users, DocumentId)
      ensures Valid() && !disposed
      ensures this.users == users && this.roles == roles && this.fold == fold
    {
      disposed := false;
      this.users := users;
      this.roles := roles;
      this.fold := fold;
    }

    /** `ThrowIfCancelOrDispose`: cancellation is checked before disposal. */
    function ThrowIfCancelOrDispose(cancel: bool): (r: Outcome)
      reads this
      ensures r.Pass? <==> !cancel && !disposed
      ensures cancel ==> r == Fail(OperationCanceled)
      ensures !cancel && disposed ==> r == Fail(ObjectDisposed)
    {
      if cancel then Fail(OperationCanceled)
      else if disposed then Fail(ObjectDisposed)
      else Pass
    }

    /** The checks every operation on one user starts with: the guard, then
        ArgumentNullException for a null user. */
    function CheckUser(cancel: bool, user: IdentityUser?): (r: Outcome)
      reads this
      ensures r.Pass? <==> !cancel && !disposed && user != null
      ensures r.Fail? && ThrowIfCancelOrDispose(cancel).Pass? ==> r == Fail(ArgumentNull)
      ensures ThrowIfCancelOrDispose(cancel).Fail? ==> r == ThrowIfCancelOrDispose(cancel)
    {
      ThrowIfCancelOrDispose(cancel).Then(if user == null then Fail(ArgumentNull) else Pass)
    }

    /** `Dispose`: every later guarded operation throws ObjectDisposed, and
        nothing sets the flag back. */
    method Dispose()
      modifies this
      ensures disposed && users == old(users) && roles == old(roles)
      ensures forall cancel :: ThrowIfCancelOrDispose(cancel).Fail?
    {
      disposed := true;
    }

    // IUserStore

    function GetUserId(user: IdentityUser?, cancel: bool): (r: Result<Option<string>>)
      reads this, user
      ensures r.Err? <==> CheckUser(cancel, user).Fail?
      ensures r.Err? ==> r.error == CheckUser(cancel, user).error
      ensures r.Ok? ==> r.value == user.Document().id
    {
      if CheckUser(cancel, user).Fail? then Err(CheckUser(cancel, user).error) else Ok(user.id)
    }

    function GetUserName(user: IdentityUser?, cancel: bool): (r: Result<Option<string>>)
      reads this, user
      ensures r.Err? <==> CheckUser(cancel, user).Fail?
      ensures r.Err? ==> r.error == CheckUser(cancel, user).error
      ensures r.Ok? ==> r.value == user.Document().userName
    {
      if CheckUser(cancel, user).Fail? then Err(CheckUser(cancel, user).error) else Ok(user.userName)
    }

    /** `SetUserNameAsync`: the name is not checked and the normalized name
        is left as it was. */
    method SetUserName(user: IdentityUser?, userName: Option<string>, cancel: bool) returns (o: Outcome)
      modifies user
      ensures o == CheckUser(cancel, user)
      ensures user != null ==> user.email == old(user.email) && user.phoneNumber == old(user.phoneNumber)
      ensures user != null ==> user.Document() == if o.Pass? then old(user.Document()).(userName := userName) else old(user.Document())
      ensures o.Pass? ==> GetUserName(user, cancel) == Ok(userName)
    {
      o := CheckUser(cancel, user);
      if o.Pass? {
        user.userName := userName;
      }
    }

    function GetNormalizedUserName(user: IdentityUser?, cancel: bool): (r: Result<Option<string>>)
      reads this, user
      ensures r.Err? <==> CheckUser(cancel, user).Fail?
      ensures r.Err? ==> r.error == CheckUser(cancel, user).error
      ensures r.Ok? ==> r.value == user.Document().normalizedUserName
    {
      if CheckUser(cancel, user).Fail? then Err(CheckUser(cancel, user).error) else Ok(user.normalizedUserName)
    }

    /** `SetNormalizedUserNameAsync`: unlike the entity's setter, a null name
        is accepted. */
    method SetNormalizedUserName(user: IdentityUser?, normalizedName: Option<string>, cancel: bool) returns (o: Outcome)
      modifies user
      ensures o == CheckUser(cancel, user)
      ensures user != null ==> user.email == old(user.email) && user.phoneNumber == old(user.phoneNumber)
      ensures user != null ==> user.Document() == if o.Pass? then old(user.Document()).(normalizedUserName := normalizedName) else old(user.Document())
      ensures o.Pass? ==> GetNormalizedUserName(user, cancel) == Ok(normalizedName)
    {
      o := CheckUser(cancel, user);
      if o.Pass? {
        user.normalizedUserName := normalizedName;
      }
    }

    /** `CreateAsync`: inserts the user's document; the `_id` index rejects an
        Id that is already stored. `CreatedOn` is not set. */
    method Create(user: IdentityUser?, cancel: bool) returns (r: Result<IdentityResult>)
      requires Valid()
      modifies this
      ensures Valid() && disposed == old(disposed) && roles == old(roles)
      ensures r.Err? <==> CheckUser(cancel, user).Fail? || Any(old(users), WithId(user.id))
      ensures r.Err? ==> users == old(users)
      ensures r.Err? && CheckUser(cancel, user).Pass? ==> r.error == DuplicateKey
      ensures r.Ok? ==> r.value == Succeeded && users == old(users) + [user.Document()]
    {
      var check := CheckUser(cancel, user);
      if check.Fail? {
        return Err(check.error);
      }
      var d := user.Document();
      var inserted := InsertOne(users, d, DocumentId);
      SameAny(users, (x: UserDocument) => DocumentId(x) == DocumentId(d), WithId(user.id));
      if inserted.Err? {
        return Err(inserted.error);
      }
      InsertKeepsUnique(users, d, DocumentId);
      users := inserted.value;
      return Ok(Succeeded);
    }

    /** `UpdateAsync`: replaces the active document with the user's Id (there
        is no concurrency-stamp condition) and succeeds only when the server
        reports one document modified: a missing or soft-deleted document, or
        one already equal to the user, gives Failed. */
    method Update(user: IdentityUser?, cancel: bool) returns (r: Result<IdentityResult>)
      requires Valid()
      modifies this
      ensures Valid() && disposed == old(disposed) && roles == old(roles)
      ensures r.Err? <==> CheckUser(cancel, user).Fail?
      ensures r.Err? ==> r.error == CheckUser(cancel, user).error && users == old(users)
      ensures r.Ok? ==> var w := ReplaceActive(old(users), user.Document());
        users == w.docs && (r.value == Succeeded <==> w.modified)
    {
      var check := CheckUser(cancel, user);
      if check.Fail? {
        return Err(check.error);
      }
      var d := user.Document();
      var w := ReplaceActive(users, d);
      if w.matched {
        OverwriteKeepsUnique(users, FirstIndex(users, ActiveWithId(d.id)).value, d, DocumentId);
      }
      users := w.docs;
      return Ok(if w.modified then Succeeded else Failed);
    }

    /** `DeleteAsync`: the user object is marked deleted first (throwing if it
        already is), then `DeletedOn` is written to the document with its
        Id; the document is kept and the result is always Succeeded. */
    method Delete(user: IdentityUser?, cancel: bool, now: Time) returns (r: Result<IdentityResult>)
      requires Valid()
      modifies this, user
      ensures Valid() && disposed == old(disposed) && roles == old(roles)
      ensures r.Err? <==> CheckUser(cancel, user).Fail? || old(user.deletedOn).Some?
      ensures r.Err? ==> users == old(users)
      ensures r.Err? && CheckUser(cancel, user).Pass? ==> r.error == InvalidOperation
      ensures user != null ==> user.email == old(user.email) && user.phoneNumber == old(user.phoneNumber)
      ensures r.Err? && user != null ==> user.Document() == old(user.Document())
      ensures r.Ok? ==> r.value == Succeeded
      ensures r.Ok? ==> user.Document() == old(user.Document()).(deletedOn := Some(now))
      ensures r.Ok? ==> users == SetDeletedOn(old(users), user.id, Some(now)).docs
      ensures |users| == |old(users)|
    {
      var check := CheckUser(cancel, user);
      if check.Fail? {
        return Err(check.error);
      }
      var deleted := user.Delete(now);
      if deleted.Fail? {
        return Err(deleted.error);
      }
      var w := SetDeletedOn(users, user.id, user.deletedOn);
      if w.matched {
        var k := FirstIndex(users, WithId(user.id)).value;
        OverwriteKeepsUnique(users, k, w.docs[k], DocumentId);
      }
      users := w.docs;
      return Ok(Succeeded);
    }

    /** `FindByIdAsync`: ArgumentException for an empty Id; otherwise the
        first active user with that Id, or null. */
    function FindById(userId: Option<string>, cancel: bool): (r: Result<Option<UserDocument>>)
      reads this
      ensures r.Err? <==> ThrowIfCancelOrDispose(cancel).Fail? || IsEmpty(userId)
      ensures r.Err? ==> r.error == ThrowIfCancelOrDispose(cancel).Then(ThrowIfStringEmpty(userId)).error
      ensures r.Ok? && r.value.Some? ==> r.value.value in users && r.value.value.id == userId && Active(r.value.value)
      ensures r.Ok? && r.value.None? ==> forall i :: 0 <= i < |users| && users[i].id == userId ==> !Active(users[i])
      ensures r.Ok? && r.value.Some? ==>
        exists k :: 0 <= k < |users| && users[k] == r.value.value &&
          forall j :: 0 <= j < k ==> !(users[j].id == userId && Active(users[j]))
    {
      var check := ThrowIfCancelOrDispose(cancel).Then(ThrowIfStringEmpty(userId));
      if check.Fail? then Err(check.error) else Ok(FindActiveById(users, userId.value))
    }

    /** `FindByNameAsync`: ArgumentException for an empty name; otherwise the
        first active user with that normalized user name, or null. */
    function FindByName(normalizedUserName: Option<string>, cancel: bool): (r: Result<Option<UserDocument>>)
      reads this
      ensures r.Err? <==> ThrowIfCancelOrDispose(cancel).Fail? || IsEmpty(normalizedUserName)
      ensures r.Err? ==> r.error == ThrowIfCancelOrDispose(cancel).Then(ThrowIfStringEmpty(normalizedUserName)).error
      ensures r.Ok? && r.value.Some? ==> r.value.value in users && r.value.value.normalizedUserName == normalizedUserName && Active(r.value.value)
      ensures r.Ok? && r.value.None? ==> forall i :: 0 <= i < |users| && users[i].normalizedUserName == normalizedUserName ==> !Active(users[i])
      ensures r.Ok? && r.value.Some? ==>
        exists k :: 0 <= k < |users| && users[k] == r.value.value &&
          forall j :: 0 <= j < k ==> !(users[j].normalizedUserName == normalizedUserName && Active(users[j]))
    {
      var check := ThrowIfCancelOrDispose(cancel).Then(ThrowIfStringEmpty(normalizedUserName));
      if check.Fail? then Err(check.error)
      else Ok(FirstWhere(users, ActiveWithNormalizedUserName(normalizedUserName.value)))
    }

    // IUserLoginStore

    /** `AddLoginAsync`: InvalidOperationException when a login with the same
        provider and key is present; otherwise the login is appended to the
        user object only. */
    method AddLogin(user: IdentityUser?, login: Option<Login>, cancel: bool) returns (o: Outcome)
      modifies user
      ensures CheckUser(cancel, user).Then(ThrowIfNull(login)).Fail? ==> o == CheckUser(cancel, user).Then(ThrowIfNull(login))
      ensures CheckUser(cancel, user).Then(ThrowIfNull(login)).Pass? ==>
        (o.Pass? <==> !Any(old(user.logins), LoginEquals(login.value))) && (o.Fail? ==> o.error == InvalidOperation)
      ensures user != null ==> user.email == old(user.email) && user.phoneNumber == old(user.phoneNumber)
      ensures user != null ==> user.Document() == if o.Pass? then old(user.Document()).(logins := old(user.logins) + [login.value]) else old(user.Document())
      ensures o.Pass? && UniqueLogins(old(user.logins)) ==> UniqueLogins(user.logins)
    {
      o := CheckUser(cancel, user).Then(ThrowIfNull(login));
      if o.Fail? {
        return;
      }
      if Any(user.logins, LoginEquals(login.value)) {
        return Fail(InvalidOperation);
      }
      o := user.AddLogin(login);
      if UniqueLogins(old(user.logins)) {
        assert LoginEquals(login.value) == (x: Login) => SameLogin(x, login.value);
        AppendKeepsUnique(old(user.logins), login.value);
      }
    }

    /** `RemoveLoginAsync`: ArgumentException for an empty provider or key;
        otherwise the first login with that provider and key is removed from
        the user object, and nothing happens when there is none. */
    method RemoveLogin(user: IdentityUser?, loginProvider: Option<string>, providerKey: Option<string>, cancel: bool)
      returns (o: Outcome)
      modifies user
      ensures o == CheckUser(cancel, user).Then(ThrowIfStringEmpty(loginProvider)).Then(ThrowIfStringEmpty(providerKey))
      ensures user != null ==> user.email == old(user.email) && user.phoneNumber == old(user.phoneNumber)
      ensures user != null ==> user.Document() == if o.Pass? then old(user.Document()).(logins := RemoveFirst(old(user.logins), LoginKey(loginProvider.value, providerKey.value))) else old(user.Document())
      ensures o.Pass? && UniqueLogins(old(user.logins)) ==> UniqueLogins(user.logins) && !Any(user.logins, LoginKey(loginProvider.value, providerKey.value))
    {
      o := CheckUser(cancel, user).Then(ThrowIfStringEmpty(loginProvider)).Then(ThrowIfStringEmpty(providerKey));
      if o.Fail? {
        return;
      }
      var key := LoginKey(loginProvider.value, providerKey.value);
      var toRemove := FirstWhere(user.logins, key);
      if toRemove.Some? {
        var removed := user.RemoveLogin(toRemove);
        RemoveSameLoginIsRemoveKey(old(user.logins), loginProvider.value, providerKey.value);
      }
      if UniqueLogins(old(user.logins)) {
        RemoveLeavesNoMatch(old(user.logins), loginProvider.value, providerKey.value);
      }
    }

    /** `GetLoginsAsync`: the user's logins, in order. */
    function GetLogins(user: IdentityUser?, cancel: bool): (r: Result<seq<Login>>)
      reads this, user
      ensures r.Err? <==> CheckUser(cancel, user).Fail?
      ensures r.Err? ==> r.error == CheckUser(cancel, user).error
      ensures r.Ok? ==> r.value == user.Document().logins
    {
      if CheckUser(cancel, user).Fail? then Err(CheckUser(cancel, user).error) else Ok(user.logins)
    }

    /** `FindByLoginAsync`: ArgumentException for an empty provider or key;
        otherwise the first active user holding a login with that provider
        and key, or null. */
    function FindByLogin(loginProvider: Option<string>, providerKey: Option<string>, cancel: bool)
      : (r: Result<Option<UserDocument>>)
      reads this
      ensures r.Err? <==> ThrowIfCancelOrDispose(cancel).Fail? || IsEmpty(loginProvider) || IsEmpty(providerKey)
      ensures r.Err? ==> r.error == ThrowIfCancelOrDispose(cancel).Then(ThrowIfStringEmpty(loginProvider)).Then(ThrowIfStringEmpty(providerKey)).error
      ensures r.Ok? && r.value.Some? ==>
        r.value.value in users && Active(r.value.value) && Any(r.value.value.logins, LoginKey(loginProvider.value, providerKey.value))
      ensures r.Ok? && r.value.None? ==>
        forall i :: 0 <= i < |users| && Active(users[i]) ==> !Any(users[i].logins, LoginKey(loginProvider.value, providerKey.value))
      ensures r.Ok? && r.value.Some? ==>
        exists k :: 0 <= k < |users| && users[k] == r.value.value &&
          forall j :: 0 <= j < k ==> !(Active(users[j]) && Any(users[j].logins, LoginKey(loginProvider.value, providerKey.value)))
    {
      var check := ThrowIfCancelOrDispose(cancel).Then(ThrowIfStringEmpty(loginProvider)).Then(ThrowIfStringEmpty(providerKey));
      if check.Fail? then Err(check.error)
      else Ok(FirstWhere(users, ActiveWithLogin(loginProvider.value, providerKey.value)))
    }

    // IUserRoleStore

    /** `AddToRoleAsync`: ArgumentException for an empty role name; the first
        stored role whose name equals it ignoring case is appended to the
        user object (even when the user already has it); with none,
        `ThrowIfNull` on the missing role throws ArgumentNullException. */
    method AddToRole(user: IdentityUser?, roleName: Option<string>, cancel: bool) returns (o: Outcome)
      modifies user
      ensures CheckUser(cancel, user).Then(ThrowIfStringEmpty(roleName)).Fail? ==>
        o == CheckUser(cancel, user).Then(ThrowIfStringEmpty(roleName))
      ensures CheckUser(cancel, user).Then(ThrowIfStringEmpty(roleName)).Pass? ==>
        (o.Pass? <==> Any(roles, NameIgnoringCase(fold, roleName.value))) && (o.Fail? ==> o.error == ArgumentNull)
      ensures user != null ==> user.email == old(user.email) && user.phoneNumber == old(user.phoneNumber)
      ensures user != null ==> user.Document() == if o.Pass? then old(user.Document()).(roles := old(user.roles) + [FirstWhere(roles, NameIgnoringCase(fold, roleName.value)).value]) else old(user.Document())
      ensures o.Pass? ==> IsInRole(user, roleName, cancel) == Ok(true)
    {
      o := CheckUser(cancel, user).Then(ThrowIfStringEmpty(roleName));
      if o.Fail? {
        return;
      }
      var role := FirstWhere(roles, NameIgnoringCase(fold, roleName.value));
      o := ThrowIfNull(role);
      if o.Fail? {
        return;
      }
      user.roles := user.roles + [role.value];
      assert user.roles[|user.roles| - 1] == role.value;
    }

    /** `RemoveFromRoleAsync`, with the enumeration fault described at
        `RemoveFromRoleAsWritten`: the user keeps the first matching role
        removed even though the call throws. */
    method RemoveFromRole(user: IdentityUser?, roleName: Option<string>, cancel: bool) returns (o: Outcome)
      modifies user
      ensures CheckUser(cancel, user).Then(ThrowIfStringEmpty(roleName)).Fail? ==>
        o == CheckUser(cancel, user).Then(ThrowIfStringEmpty(roleName))
      ensures user != null ==> user.email == old(user.email) && user.phoneNumber == old(user.phoneNumber)
      ensures CheckUser(cancel, user).Then(ThrowIfStringEmpty(roleName)).Fail? && user != null ==>
        user.Document() == old(user.Document())
      ensures CheckUser(cancel, user).Then(ThrowIfStringEmpty(roleName)).Pass? ==>
        var (rest, outcome) := RemoveFromRoleAsWritten(old(user.roles), NameIgnoringCase(fold, roleName.value));
        o == outcome && user.Document() == old(user.Document()).(roles := rest)
    {
      o := CheckUser(cancel, user).Then(ThrowIfStringEmpty(roleName));
      if o.Fail? {
        return;
      }
      var (rest, outcome) := RemoveFromRoleAsWritten(user.roles, NameIgnoringCase(fold, roleName.value));
      user.roles := rest;
      o := outcome;
    }

    /** `GetRolesAsync`: the names of the user's roles, in order. */
    function GetRoles(user: IdentityUser?, cancel: bool): (r: Result<seq<Option<string>>>)
      reads this, user
      ensures r.Err? <==> CheckUser(cancel, user).Fail?
      ensures r.Err? ==> r.error == CheckUser(cancel, user).error
      ensures r.Ok? ==> |r.value| == |user.roles| && forall i :: 0 <= i < |r.value| ==> r.value[i] == user.roles[i].name
    {
      if CheckUser(cancel, user).Fail? then Err(CheckUser(cancel, user).error)
      else Ok(seq(|user.roles|, i requires 0 <= i < |user.roles| reads user => user.roles[i].name))
    }

    /** `IsInRoleAsync`: ArgumentException for an empty role name; otherwise
        whether some role of the user has that name, ignoring case. */
    function IsInRole(user: IdentityUser?, roleName: Option<string>, cancel: bool): (r: Result<bool>)
      reads this, user
      ensures r.Err? <==> CheckUser(cancel, user).Fail? || IsEmpty(roleName)
      ensures r.Err? ==> r.error == CheckUser(cancel, user).Then(ThrowIfStringEmpty(roleName)).error
      ensures r.Ok? ==>
        (r.value <==> exists i :: 0 <= i < |user.roles| && user.roles[i].name.Some? && fold(user.roles[i].name.value) == fold(roleName.value))
    {
      var check := CheckUser(cancel, user).Then(ThrowIfStringEmpty(roleName));
      if check.Fail? then Err(check.error) else Ok(Any(user.roles, NameIgnoringCase(fold, roleName.value)))
    }

    /** `GetUsersInRoleAsync`: ArgumentException for an empty role name;
        otherwise every stored user, soft-deleted or not, holding a role whose
        normalized name is exactly the argument. */
    function GetUsersInRole(roleName: Option<string>, cancel: bool): (r: Result<seq<UserDocument>>)
      reads this
      ensures r.Err? <==> ThrowIfCancelOrDispose(cancel).Fail? || IsEmpty(roleName)
      ensures r.Err? ==> r.error == ThrowIfCancelOrDispose(cancel).Then(ThrowIfStringEmpty(roleName)).error
      ensures r.Ok? ==> forall i :: 0 <= i < |r.value| ==> r.value[i] in users && InRoleNormalized(roleName.value)(r.value[i])
      ensures r.Ok? ==> forall i :: 0 <= i < |users| && InRoleNormalized(roleName.value)(users[i]) ==> users[i] in r.value
      ensures r.Ok? ==> multiset(r.value) <= multiset(users)
      ensures r.Ok? ==> forall d :: d in multiset(users) && InRoleNormalized(roleName.value)(d) ==> multiset(r.value)[d] == multiset(users)[d]
    {
      var check := ThrowIfCancelOrDispose(cancel).Then(ThrowIfStringEmpty(roleName));
      if check.Fail? then Err(check.error)
      else
        WhereCounts(users, InRoleNormalized(roleName.value));
        Ok(Where(users, InRoleNormalized(roleName.value)))
    }

    // IUserPasswordStore and IUserSecurityStampStore

    /** `SetPasswordHashAsync`: ArgumentException for an empty hash. */
    method SetPasswordHash(user: IdentityUser?, passwordHash: Option<string>, cancel: bool) returns (o: Outcome)
      modifies user
      ensures o == CheckUser(cancel, user).Then(ThrowIfStringEmpty(passwordHash))
      ensures user != null ==> user.email == old(user.email) && user.phoneNumber == old(user.phoneNumber)
      ensures user != null ==> user.Document() == if o.Pass? then old(user.Document()).(passwordHash := passwordHash) else old(user.Document())
      ensures o.Pass? ==> GetPasswordHash(user, cancel) == Ok(passwordHash)
      ensures o.Pass? ==> HasPassword(user, cancel) == Ok(false)
    {
      o := CheckUser(cancel, user).Then(ThrowIfStringEmpty(passwordHash));
      if o.Pass? {
        user.passwordHash := passwordHash;
      }
    }

    function GetPasswordHash(user: IdentityUser?, cancel: bool): (r: Result<Option<string>>)
      reads this, user
      ensures r.Err? <==> CheckUser(cancel, user).Fail?
      ensures r.Err? ==> r.error == CheckUser(cancel, user).error
      ensures r.Ok? ==> r.value == user.Document().passwordHash
    {
      if CheckUser(cancel, user).Fail? then Err(CheckUser(cancel, user).error) else Ok(user.passwordHash)
    }

    /** `HasPasswordAsync` as written: true when the hash is null or blank
        (see `HasPasswordAsWritten`). */
    function HasPassword(user: IdentityUser?, cancel: bool): (r: Result<bool>)
      reads this, user
      ensures r.Err? <==> CheckUser(cancel, user).Fail?
      ensures r.Err? ==> r.error == CheckUser(cancel, user).error
      ensures r.Ok? ==> (r.value <==> !HasPasswordIntended(user.passwordHash))
    {
      if CheckUser(cancel, user).Fail? then Err(CheckUser(cancel, user).error)
      else Ok(HasPasswordAsWritten(user.passwordHash))
    }

    /** `SetSecurityStampAsync`: ArgumentException for an empty stamp. */
    method SetSecurityStamp(user: IdentityUser?, stamp: Option<string>, cancel: bool) returns (o: Outcome)
      modifies user
      ensures o == CheckUser(cancel, user).Then(ThrowIfStringEmpty(stamp))
      ensures user != null ==> user.email == old(user.email) && user.phoneNumber == old(user.phoneNumber)
      ensures user != null ==> user.Document() == if o.Pass? then old(user.Document()).(securityStamp := stamp) else old(user.Document())
      ensures o.Pass? ==> GetSecurityStamp(user, cancel) == Ok(stamp)
    {
      o := CheckUser(cancel, user).Then(ThrowIfStringEmpty(stamp));
      if o.Pass? {
        user.securityStamp := stamp;
      }
    }

    function GetSecurityStamp(user: IdentityUser?, cancel: bool): (r: Result<Option<string>>)
      reads this, user
      ensures r.Err? <==> CheckUser(cancel, user).Fail?
      ensures r.Err? ==> r.error == CheckUser(cancel, user).error
      ensures r.Ok? ==> r.value == user.Document().securityStamp
    {
      if CheckUser(cancel, user).Fail? then Err(CheckUser(cancel, user).error) else Ok(user.securityStamp)
    }

    // IUserEmailStore

    /** `SetEmailAsync`: ArgumentException for an empty address; otherwise a
        new `UserEmail` replaces the user's record, dropping its normalized
        value and confirmation. */
    method SetEmail(user: IdentityUser?, email: Option<string>, cancel: bool) returns (o: Outcome)
      modifies user
      ensures o == CheckUser(cancel, user).Then(ThrowIfStringEmpty(email))
      ensures user != null ==> user.phoneNumber == old(user.phoneNumber)
      ensures o.Fail? && user != null ==> user.email == old(user.email) && user.Document() == old(user.Document())
      ensures o.Pass? ==> fresh(user.email) && user.email.recordClass == UserEmail
      ensures o.Pass? ==> user.Document() == old(user.Document()).(email := Some(ContactDocument(ContactTypes.Email, email, Option.None, false, Option.None)))
      ensures o.Pass? ==> GetEmail(user, cancel) == Ok(email)
    {
      o := CheckUser(cancel, user).Then(ThrowIfStringEmpty(email));
      if o.Fail? {
        return;
      }
      var record := NewUserEmail(email);
      user.email := record.value;
    }

    /** `GetEmailAsync`: NullReferenceException when the user has no e-mail
        record. */
    function GetEmail(user: IdentityUser?, cancel: bool): (r: Result<Option<string>>)
      reads this, user, if user != null then user.email else null
      ensures r.Err? <==> CheckUser(cancel, user).Fail? || user.email == null
      ensures r.Err? ==> r.error == CheckUser(cancel, user).Then(NeedEmail(user)).error
      ensures r.Ok? ==> r.value == user.Document().email.value.value
    {
      if CheckUser(cancel, user).Fail? then Err(CheckUser(cancel, user).error)
      else if user.email == null then Err(NullReference)
      else Ok(user.email.value)
    }

    /** `GetEmailConfirmedAsync`: the e-mail record's confirmation flag. */
    function GetEmailConfirmed(user: IdentityUser?, cancel: bool): (r: Result<bool>)
      reads this, user, if user != null then user.email else null
      ensures r.Err? <==> CheckUser(cancel, user).Fail? || user.email == null
      ensures r.Err? ==> r.error == CheckUser(cancel, user).Then(NeedEmail(user)).error
      ensures r.Ok? ==> r.value == user.Document().email.value.isComfirmed
    {
      if CheckUser(cancel, user).Fail? then Err(CheckUser(cancel, user).error)
      else if user.email == null then Err(NullReference)
      else Ok(user.email.isComfirmed)
    }

    /** `SetEmailConfirmedAsync`: only the confirmation time changes — `now`
        when confirming, null when not; the confirmation flag that
        `GetEmailConfirmedAsync` reads is left as it was. */
    method SetEmailConfirmed(user: IdentityUser?, confirmed: bool, cancel: bool, now: Time) returns (o: Outcome)
      modifies if user != null then user.email else null
      ensures o == CheckUser(cancel, user).Then(NeedEmail(user))
      ensures user != null && user.email != null ==> user.email.baseType == old(user.email.baseType)
      ensures o.Fail? && user != null && user.email != null ==> user.email.Document() == old(user.email.Document())
      ensures o.Pass? ==> user.email.Document() == old(user.email.Document()).(confirmedOn := if confirmed then Some(now) else Option.None)
      ensures o.Pass? ==> GetEmailConfirmed(user, cancel) == old(GetEmailConfirmed(user, cancel))
    {
      o := CheckUser(cancel, user).Then(NeedEmail(user));
      if o.Pass? {
        user.email.confirmedOn := if confirmed then Some(now) else Option.None;
      }
    }

    /** `FindByEmailAsync`: ArgumentException for an empty address; otherwise
        the first user whose e-mail record has that normalized value, or null.
        Soft-deleted users are not filtered out. */
    function FindByEmail(normalizedEmail: Option<string>, cancel: bool): (r: Result<Option<UserDocument>>)
      reads this
      ensures r.Err? <==> ThrowIfCancelOrDispose(cancel).Fail? || IsEmpty(normalizedEmail)
      ensures r.Err? ==> r.error == ThrowIfCancelOrDispose(cancel).Then(ThrowIfStringEmpty(normalizedEmail)).error
      ensures r.Ok? && r.value.Some? ==>
        r.value.value in users && r.value.value.email.Some? && r.value.value.email.value.normalizedValue == normalizedEmail
      ensures r.Ok? && r.value.None? ==>
        forall i :: 0 <= i < |users| && users[i].email.Some? ==> users[i].email.value.normalizedValue != normalizedEmail
      ensures r.Ok? && r.value.Some? ==>
        exists k :: 0 <= k < |users| && users[k] == r.value.value &&
          forall j :: 0 <= j < k ==> !(users[j].email.Some? && users[j].email.value.normalizedValue == normalizedEmail)
    {
      var check := ThrowIfCancelOrDispose(cancel).Then(ThrowIfStringEmpty(normalizedEmail));
      if check.Fail? then Err(check.error) else Ok(FindFirstByEmail(users, normalizedEmail.value))
    }

    /** `GetNormalizedEmailAsync`: the e-mail record's normalized value. */
    function GetNormalizedEmail(user: IdentityUser?, cancel: bool): (r: Result<Option<string>>)
      reads this, user, if user != null then user.email else null
      ensures r.Err? <==> CheckUser(cancel, user).Fail? || user.email == null
      ensures r.Err? ==> r.error == CheckUser(cancel, user).Then(NeedEmail(user)).error
      ensures r.Ok? ==> r.value == user.Document().email.value.normalizedValue
    {
      if CheckUser(cancel, user).Fail? then Err(CheckUser(cancel, user).error)
      else if user.email == null then Err(NullReference)
      else Ok(user.email.normalizedValue)
    }

    /** `SetNormalizedEmailAsync`: ArgumentNullException for a null value;
        otherwise the e-mail record's normalized value, and nothing else. */
    method SetNormalizedEmail(user: IdentityUser?, normalizedEmail: Option<string>, cancel: bool) returns (o: Outcome)
      modifies if user != null then user.email else null
      ensures o == CheckUser(cancel, user).Then(ThrowIfNull(normalizedEmail)).Then(
        NeedEmail(user))
      ensures user != null && user.email != null ==> user.email.baseType == old(user.email.baseType)
      ensures o.Fail? && user != null && user.email != null ==> user.email.Document() == old(user.email.Document())
      ensures o.Pass? ==> user.email.Document() == old(user.email.Document()).(normalizedValue := normalizedEmail)
      ensures o.Pass? ==> GetNormalizedEmail(user, cancel) == Ok(normalizedEmail)
    {
      o := CheckUser(cancel, user).Then(ThrowIfNull(normalizedEmail)).Then(
        NeedEmail(user));
      if o.Pass? {
        user.email.normalizedValue := normalizedEmail;
      }
    }

    // IUserLockoutStore

    function GetLockoutEndDate(user: IdentityUser?, cancel: bool): (r: Result<Option<Time>>)
      reads this, user
      ensures r.Err? <==> CheckUser(cancel, user).Fail?
      ensures r.Err? ==> r.error == CheckUser(cancel, user).error
      ensures r.Ok? ==> r.value == user.Document().lockoutEnd
    {
      if CheckUser(cancel, user).Fail? then Err(CheckUser(cancel, user).error) else Ok(user.lockoutEnd)
    }

    /** `SetLockoutEndDateAsync`: stores the time as given, past or future. */
    method SetLockoutEndDate(user: IdentityUser?, lockoutEnd: Option<Time>, cancel: bool) returns (o: Outcome)
      modifies user
      ensures o == CheckUser(cancel, user)
      ensures user != null ==> user.email == old(user.email) && user.phoneNumber == old(user.phoneNumber)
      ensures user != null ==> user.Document() == if o.Pass? then old(user.Document()).(lockoutEnd := lockoutEnd) else old(user.Document())
      ensures o.Pass? ==> GetLockoutEndDate(user, cancel) == Ok(lockoutEnd)
    {
      o := CheckUser(cancel, user);
      if o.Pass? {
        user.lockoutEnd := lockoutEnd;
      }
    }

    /** `IncrementAccessFailedCountAsync`: the count goes up by one (wrapping
        at Int32.MaxValue) and the new count is returned. */
    method IncrementAccessFailedCount(user: IdentityUser?, cancel: bool) returns (r: Result<int32>)
      modifies user
      ensures r.Err? <==> CheckUser(cancel, user).Fail?
      ensures r.Err? ==> r.error == CheckUser(cancel, user).error
      ensures user != null ==> user.email == old(user.email) && user.phoneNumber == old(user.phoneNumber)
      ensures r.Err? && user != null ==> user.Document() == old(user.Document())
      ensures r.Ok? ==> r.value == WrappingIncrement(old(user.accessFailedCount))
      ensures r.Ok? ==> user.Document() == old(user.Document()).(accessFailedCount := r.value)
      ensures r.Ok? && old(user.accessFailedCount) < Int32Max as int32 ==> r.value as int == old(user.accessFailedCount) as int + 1
    {
      var check := CheckUser(cancel, user);
      if check.Fail? {
        return Err(check.error);
      }
      user.accessFailedCount := WrappingIncrement(user.accessFailedCount);
      return Ok(user.accessFailedCount);
    }

    /** `ResetAccessFailedCountAsync`: the count becomes 0. */
    method ResetAccessFailedCount(user: IdentityUser?, cancel: bool) returns (o: Outcome)
      modifies user
      ensures o == CheckUser(cancel, user)
      ensures user != null ==> user.email == old(user.email) && user.phoneNumber == old(user.phoneNumber)
      ensures user != null ==> user.Document() == if o.Pass? then old(user.Document()).(accessFailedCount := 0) else old(user.Document())
      ensures o.Pass? ==> GetAccessFailedCount(user, cancel) == Ok(0)
    {
      o := CheckUser(cancel, user);
      if o.Pass? {
        user.accessFailedCount := 0;
      }
    }

    function GetAccessFailedCount(user: IdentityUser?, cancel: bool): (r: Result<int32>)
      reads this, user
      ensures r.Err? <==> CheckUser(cancel, user).Fail?
      ensures r.Err? ==> r.error == CheckUser(cancel, user).error
      ensures r.Ok? ==> r.value == user.Document().accessFailedCount
    {
      if CheckUser(cancel, user).Fail? then Err(CheckUser(cancel, user).error) else Ok(user.accessFailedCount)
    }

    function GetLockoutEnabled(user: IdentityUser?, cancel: bool): (r: Result<bool>)
      reads this, user
      ensures r.Err? <==> CheckUser(cancel, user).Fail?
      ensures r.Err? ==> r.error == CheckUser(cancel, user).error
      ensures r.Ok? ==> r.value == user.Document().lockoutEnabled
    {
      if CheckUser(cancel, user).Fail? then Err(CheckUser(cancel, user).error) else Ok(user.lockoutEnabled)
    }

    method SetLockoutEnabled(user: IdentityUser?, enabled: bool, cancel: bool) returns (o: Outcome)
      modifies user
      ensures o == CheckUser(cancel, user)
      ensures user != null ==> user.email == old(user.email) && user.phoneNumber == old(user.phoneNumber)
      ensures user != null ==> user.Document() == if o.Pass? then old(user.Document()).(lockoutEnabled := enabled) else old(user.Document())
      ensures o.Pass? ==> GetLockoutEnabled(user, cancel) == Ok(enabled)
    {
      o := CheckUser(cancel, user);
      if o.Pass? {
        user.lockoutEnabled := enabled;
      }
    }

    // IUserPhoneNumberStore

    /** `SetPhoneNumberAsync`: a new `UserMobile` replaces the user's record;
        its constructor throws ArgumentException for an empty number. */
    method SetPhoneNumber(user: IdentityUser?, phoneNumber: Option<string>, cancel: bool) returns (o: Outcome)
      modifies user
      ensures o == CheckUser(cancel, user).Then(ThrowIfStringEmpty(phoneNumber))
      ensures user != null ==> user.email == old(user.email)
      ensures o.Fail? && user != null ==> user.phoneNumber == old(user.phoneNumber) && user.Document() == old(user.Document())
      ensures o.Pass? ==> fresh(user.phoneNumber) && user.phoneNumber.recordClass == UserMobile
      ensures o.Pass? ==> user.Document() == old(user.Document()).(phoneNumber := Some(ContactDocument(ContactTypes.Mobile, phoneNumber, Option.None, false, Option.None)))
      ensures o.Pass? ==> GetPhoneNumber(user, cancel) == Ok(phoneNumber)
    {
      o := CheckUser(cancel, user);
      if o.Fail? {
        return;
      }
      var record := NewUserMobileWithPhone(phoneNumber);
      if record.Err? {
        return Fail(record.error);
      }
      user.phoneNumber := record.value;
    }

    /** `GetPhoneNumberAsync`: NullReferenceException when the user has no
        phone record. */
    function GetPhoneNumber(user: IdentityUser?, cancel: bool): (r: Result<Option<string>>)
      reads this, user, if user != null then user.phoneNumber else null
      ensures r.Err? <==> CheckUser(cancel, user).Fail? || user.phoneNumber == null
      ensures r.Err? ==> r.error == CheckUser(cancel, user).Then(NeedPhone(user)).error
      ensures r.Ok? ==> r.value == user.Document().phoneNumber.value.value
    {
      if CheckUser(cancel, user).Fail? then Err(CheckUser(cancel, user).error)
      else if user.phoneNumber == null then Err(NullReference)
      else Ok(user.phoneNumber.value)
    }

    /** `GetPhoneNumberConfirmedAsync`: the phone record's confirmation flag. */
    function GetPhoneNumberConfirmed(user: IdentityUser?, cancel: bool): (r: Result<bool>)
      reads this, user, if user != null then user.phoneNumber else null
      ensures r.Err? <==> CheckUser(cancel, user).Fail? || user.phoneNumber == null
      ensures r.Err? ==> r.error == CheckUser(cancel, user).Then(NeedPhone(user)).error
      ensures r.Ok? ==> r.value == user.Document().phoneNumber.value.isComfirmed
    {
      if CheckUser(cancel, user).Fail? then Err(CheckUser(cancel, user).error)
      else if user.phoneNumber == null then Err(NullReference)
      else Ok(user.phoneNumber.isComfirmed)
    }

    /** `SetPhoneNumberConfirmedAsync` as written: the confirmation time
        becomes `now` whatever `confirmed` is, and the confirmation flag is
        left as it was (see `PhoneConfirmedAsWritten`). */
    method SetPhoneNumberConfirmed(user: IdentityUser?, confirmed: bool, cancel: bool, now: Time) returns (o: Outcome)
      modifies if user != null then user.phoneNumber else null
      ensures o == CheckUser(cancel, user).Then(NeedPhone(user))
      ensures user != null && user.phoneNumber != null ==> user.phoneNumber.baseType == old(user.phoneNumber.baseType)
      ensures o.Fail? && user != null && user.phoneNumber != null ==> user.phoneNumber.Document() == old(user.phoneNumber.Document())
      ensures o.Pass? ==> user.phoneNumber.Document() == PhoneConfirmedAsWritten(old(user.phoneNumber.Document()), confirmed, now)
      ensures o.Pass? ==> GetPhoneNumberConfirmed(user, cancel) == old(GetPhoneNumberConfirmed(user, cancel))
    {
      o := CheckUser(cancel, user).Then(NeedPhone(user));
      if o.Pass? {
        user.phoneNumber.confirmedOn := Some(now);
      }
    }

    // IUserTwoFactorStore

    method SetTwoFactorEnabled(user: IdentityUser?, enabled: bool, cancel: bool) returns (o: Outcome)
      modifies user
      ensures o == CheckUser(cancel, user)
      ensures user != null ==> user.email == old(user.email) && user.phoneNumber == old(user.phoneNumber)
      ensures user != null ==> user.Document() == if o.Pass? then old(user.Document()).(twoFactorEnabled := enabled) else old(user.Document())
      ensures o.Pass? ==> GetTwoFactorEnabled(user, cancel) == Ok(enabled)
    {
      o := CheckUser(cancel, user);
      if o.Pass? {
        user.twoFactorEnabled := enabled;
      }
    }

    function GetTwoFactorEnabled(user: IdentityUser?, cancel: bool): (r: Result<bool>)
      reads this, user
      ensures r.Err? <==> CheckUser(cancel, user).Fail?
      ensures r.Err? ==> r.error == CheckUser(cancel, user).error
      ensures r.Ok? ==> r.value == user.Document().twoFactorEnabled
    {
      if CheckUser(cancel, user).Fail? then Err(CheckUser(cancel, user).error) else Ok(user.twoFactorEnabled)
    }

    // IUserAuthenticationTokenStore: every operation throws once its checks pass.

    /** `SetTokenAsync`: NotImplementedException after the checks. */
    function SetToken(user: IdentityUser?, loginProvider: Option<string>, name: Option<string>, value: Option<string>, cancel: bool)
      : (o: Outcome)
      reads this
      ensures o.Fail?
      ensures o.error == NotImplemented <==> CheckUser(cancel, user).Pass?
      ensures CheckUser(cancel, user).Fail? ==> o == CheckUser(cancel, user)
    {
      CheckUser(cancel, user).Then(Fail(NotImplemented))
    }

    /** `RemoveTokenAsync`: NotImplementedException after the checks. */
    function RemoveToken(user: IdentityUser?, loginProvider: Option<string>, name: Option<string>, cancel: bool)
      : (o: Outcome)
      reads this
      ensures o.Fail?
      ensures o.error == NotImplemented <==> CheckUser(cancel, user).Pass?
      ensures CheckUser(cancel, user).Fail? ==> o == CheckUser(cancel, user)
    {
      CheckUser(cancel, user).Then(Fail(NotImplemented))
    }

    /** `GetTokenAsync`: ArgumentException for an empty provider or token
        name, NotImplementedException otherwise. */
    function GetToken(user: IdentityUser?, loginProvider: Option<string>, name: Option<string>, cancel: bool)
      : (r: Result<Option<string>>)
      reads this
      ensures r.Err?
      ensures r.error == NotImplemented <==> CheckUser(cancel, user).Pass? && IsNotEmpty(loginProvider) && IsNotEmpty(name)
      ensures CheckUser(cancel, user).Fail? ==> r.error == CheckUser(cancel, user).error
      ensures CheckUser(cancel, user).Pass? && IsEmpty(loginProvider) ==> r.error == Argument
      ensures CheckUser(cancel, user).Pass? && IsNotEmpty(loginProvider) && IsEmpty(name) ==> r.error == Argument
    {
      var check := CheckUser(cancel, user).Then(ThrowIfStringEmpty(loginProvider)).Then(ThrowIfStringEmpty(name));
      Err(check.Then(Fail(NotImplemented)).error)
    }
  }

  /** Removing the first login equal to the first login with a given key is
      removing the first login with that key. */
  lemma RemoveSameLoginIsRemoveKey(logins: seq<Login>, loginProvider: string, providerKey: string)
    requires FirstWhere(logins, LoginKey(loginProvider, providerKey)).Some?
    ensures var l := FirstWhere(logins, LoginKey(loginProvider, providerKey)).value;
      RemoveFirst(logins, LoginEquals(l)) == RemoveFirst(logins, LoginKey(loginProvider, providerKey))
  {
    var key := LoginKey(loginProvider, providerKey);
    var l := FirstWhere(logins, key).value;
    var same := LoginEquals(l);
    assert forall x :: same(x) == key(x);
    SameFilterSameIndex(logins, same, key);
  }

  /** Two filters that agree on every element find the same first match. */
  lemma {:induction false} SameFilterSameIndex<T>(s: seq<T>, p: T -> bool, q: T -> bool)
    requires forall i :: 0 <= i < |s| ==> p(s[i]) == q(s[i])
    ensures FirstIndex(s, p) == FirstIndex(s, q)
    ensures RemoveFirst(s, p) == RemoveFirst(s, q)
  {
    if |s| > 0 {
      SameFilterSameIndex(s[1..], p, q);
    }
  }

  /** Filters that agree on every element agree on whether any matches. */
  lemma SameAny<T>(s: seq<T>, p: T -> bool, q: T -> bool)
    requires forall i :: 0 <= i < |s| ==> p(s[i]) == q(s[i])
    ensures Any(s, p) == Any(s, q)
  {
  }

  // What the collection operations promise together.

  /** After `DeleteAsync` has stamped `DeletedOn` on a user, `FindByIdAsync`
      no longer finds that Id. */
  lemma FindByIdAfterSoftDelete(docs: seq<UserDocument>, id: string, now: Time)
    requires UniqueKeys(docs, DocumentId)
    ensures FindActiveById(SetDeletedOn(docs, Some(id), Some(now)).docs, id).None?
  {
    var w := SetDeletedOn(docs, Some(id), Some(now));
    var p := ActiveWithId(Some(id));
    if w.matched {
      var k := FirstIndex(docs, WithId(Some(id))).value;
      forall i | 0 <= i < |w.docs|
        ensures !p(w.docs[i])
      {
        if i != k {
          assert w.docs[i] == docs[i];
          assert DocumentId(docs[i]) != DocumentId(docs[k]);
        }
      }
    } else {
      forall i | 0 <= i < |docs|
        ensures !p(docs[i])
      {
        assert !WithId(Some(id))(docs[i]);
      }
    }
  }

  /** `DeleteAsync` keeps the document: the collection has as many
      documents, and the user's is still there, now marked deleted. */
  lemma SoftDeleteKeepsDocument(docs: seq<UserDocument>, k: nat, now: Time)
    requires UniqueKeys(docs, DocumentId) && k < |docs|
    ensures var after := SetDeletedOn(docs, docs[k].id, Some(now)).docs;
      |after| == |docs| && after[k] == docs[k].(deletedOn := Some(now))
  {
    var p := WithId(docs[k].id);
    assert p(docs[k]);
    var j := FirstIndex(docs, p).value;
    assert DocumentId(docs[j]) == DocumentId(docs[k]);
  }

  /** A soft-deleted user cannot be updated: with the only document of its
      Id marked deleted, `UpdateAsync` matches nothing and fails. */
  lemma UpdateOfSoftDeletedFails(docs: seq<UserDocument>, k: nat, d: UserDocument)
    requires UniqueKeys(docs, DocumentId)
    requires k < |docs| && docs[k].id == d.id && !Active(docs[k])
    ensures ReplaceActive(docs, d) == WriteResult(docs, false, false)
  {
    var p := ActiveWithId(d.id);
    forall j | 0 <= j < |docs|
      ensures !p(docs[j])
    {
      if j != k {
        assert DocumentId(docs[j]) != DocumentId(docs[k]);
      }
    }
  }

  /** After an `UpdateAsync` that matched, `FindByIdAsync` returns the
      written document (when it is itself not marked deleted). */
  lemma FindByIdAfterUpdate(docs: seq<UserDocument>, d: UserDocument)
    requires d.id.Some? && Active(d) && ReplaceActive(docs, d).matched
    ensures FindActiveById(ReplaceActive(docs, d).docs, d.id.value) == Some(d)
  {
    var p := ActiveWithId(d.id);
    var k := FirstIndex(docs, p).value;
    var after := ReplaceActive(docs, d).docs;
    assert after == docs[k := d];
    assert p(after[k]);
  }

  /** `UpdateAsync` does not look at the concurrency stamp: a user with any
      other stamp is written in the same place. */
  lemma UpdateIgnoresConcurrencyStamp(docs: seq<UserDocument>, d: UserDocument, stamp: Option<string>)
    ensures ReplaceActive(docs, d.(concurrencyStamp := stamp)).matched == ReplaceActive(docs, d).matched
    ensures ReplaceActive(docs, d).matched ==> var k := FirstIndex(docs, ActiveWithId(d.id)).value;
      ReplaceActive(docs, d.(concurrencyStamp := stamp)).docs == ReplaceActive(docs, d).docs[k := d.(concurrencyStamp := stamp)]
  {
  }

  /** After `CreateAsync` of an active user, `FindByIdAsync` returns it. */
  lemma FindByIdAfterCreate(docs: seq<UserDocument>, d: UserDocument)
    requires d.id.Some? && Active(d) && InsertOne(docs, d, DocumentId).Ok?
    ensures FindActiveById(InsertOne(docs, d, DocumentId).value, d.id.value) == Some(d)
  {
    var after := docs + [d];
    var p := ActiveWithId(d.id);
    forall i | 0 <= i < |docs|
      ensures !p(docs[i])
    {
      assert !((x: UserDocument) => DocumentId(x) == DocumentId(d))(docs[i]);
    }
    FirstWhereAfterAppend(docs, d, p);
  }

  /** After `CreateAsync` of a user whose normalized e-mail no stored user
      has, `FindByEmailAsync` returns it. */
  lemma FindByEmailAfterCreate(docs: seq<UserDocument>, d: UserDocument, email: string)
    requires InsertOne(docs, d, DocumentId).Ok?
    requires WithNormalizedEmail(email)(d) && !Any(docs, WithNormalizedEmail(email))
    ensures FindFirstByEmail(InsertOne(docs, d, DocumentId).value, email) == Some(d)
  {
    FirstWhereAfterAppend(docs, d, WithNormalizedEmail(email));
  }

  /** `FindByEmailAsync` returns the first stored user with the address even
      when that user is soft-deleted, where `FindByIdAsync` never returns it. */
  lemma FindByEmailReturnsDeleted(docs: seq<UserDocument>, k: nat, email: string)
    requires k < |docs| && WithNormalizedEmail(email)(docs[k]) && !Active(docs[k])
    requires forall j :: 0 <= j < k ==> !WithNormalizedEmail(email)(docs[j])
    ensures FindFirstByEmail(docs, email) == Some(docs[k])
    ensures forall id :: FindActiveById(docs, id) != Some(docs[k])
  {
  }

  /** After `CreateAsync`, `GetUsersInRoleAsync` lists the users it listed
      before, in the same order, followed by the new user when it holds the
      role. */
  lemma UsersInRoleAfterCreate(docs: seq<UserDocument>, d: UserDocument, roleName: string)
    requires InsertOne(docs, d, DocumentId).Ok?
    ensures var p := InRoleNormalized(roleName);
      Where(InsertOne(docs, d, DocumentId).value, p) == Where(docs, p) + if p(d) then [d] else []
  {
    var p := InRoleNormalized(roleName);
    WhereAppend(docs, [d], p);
    assert [d][1..] == [];
  }

  /** The first match in `s + [x]` is `x` when nothing in `s` matches. */
  lemma FirstWhereAfterAppend<T>(s: seq<T>, x: T, p: T -> bool)
    requires p(x) && !Any(s, p)
    ensures FirstWhere(s + [x], p) == Some(x)
  {
    var t := s + [x];
    assert t[|s|] == x;
    forall j | 0 <= j < |s|
      ensures !p(t[j])
    {
      assert t[j] == s[j];
    }
  }
}
