/** The user entity (IdentityUser.cs): an object whose methods update its
    properties and its claim and login lists in place, and the document it
    is stored as. */
module IdentityUsers {
  import opened Common
  import opened StringExtensions
  import opened Sequences
  import opened ContactRecords
  import opened MongoUserEmails
  import opened MongoUserMobiles
  import opened Credentials
  import opened IdentityRoles

  /** A user as stored in the users collection: every property's value, the
      contact records as embedded documents. */
  datatype UserDocument = UserDocument(
    id: Option<string>,
    userName: Option<string>,
    normalizedUserName: Option<string>,
    email: Option<ContactDocument>,
    normalizedEmail: Option<string>,
    emailConfirmed: bool,
    passwordHash: Option<string>,
    securityStamp: Option<string>,
    concurrencyStamp: Option<string>,
    phoneNumber: Option<ContactDocument>,
    phoneNumberConfirmed: bool,
    twoFactorEnabled: bool,
    lockoutEnd: Option<Time>,
    lockoutEnabled: bool,
    accessFailedCount: int32,
    roles: seq<Role>,
    claims: seq<Claim>,
    logins: seq<Login>,
    createdOn: Option<Time>,
    deletedOn: Option<Time>)

  /** An active user has not been soft-deleted. */
  predicate Active(d: UserDocument) {
    d.deletedOn.None?
  }

  /** The state of a user straight after `IdentityUser()`: the Id (a GUID in
      "N" format) and the concurrency stamp (a GUID) are the only values set;
      every list is empty; the user is not created, not deleted. */
  function NewUserDocument(newId: string, newStamp: string): (d: UserDocument)
    ensures d.id == Some(newId) && d.concurrencyStamp == Some(newStamp)
    ensures d.roles == [] && d.claims == [] && d.logins == []
    ensures d.createdOn.None? && d.deletedOn.None? && Active(d)
    ensures d.userName.None? && d.email.None? && d.phoneNumber.None?
    ensures d.accessFailedCount == 0 && !d.twoFactorEnabled && !d.lockoutEnabled
  {
    UserDocument(Some(newId), Option.None, Option.None, Option.None, Option.None, false,
      Option.None, Option.None, Some(newStamp), Option.None, false, false, Option.None,
      false, 0, [], [], [], Option.None, Option.None)
  }

  /** C#'s unchecked `int` increment: Int32.MaxValue wraps to Int32.MinValue. */
  function WrappingIncrement(n: int32): (r: int32)
    ensures n < Int32Max as int32 ==> r as int == n as int + 1
    ensures n == Int32Max as int32 ==> r == Int32Min as int32
  {
    if n == Int32Max as int32 then Int32Min as int32 else n + 1
  }

  /** `k` increments in a row. */
  function IncrementTimes(n: int32, k: nat): int32 {
    if k == 0 then n else WrappingIncrement(IncrementTimes(n, k - 1))
  }

  /** From zero, `k` increments count to `k` as long as the count stays
      within Int32.MaxValue; each increment returns the running count. */
  lemma {:induction false} IncrementTimesFromZero(k: nat)
    requires k <= Int32Max
    ensures IncrementTimes(0, k) as int == k
  {
    if k > 0 {
      IncrementTimesFromZero(k - 1);
    }
  }

  class IdentityUser {
    var id: Option<string>
    var userName: Option<string>
    var normalizedUserName: Option<string>
    var email: ContactRecord?
    var normalizedEmail: Option<string>
    var emailConfirmed: bool
    var passwordHash: Option<string>
    var securityStamp: Option<string>
    var concurrencyStamp: Option<string>
    var phoneNumber: ContactRecord?
    var phoneNumberConfirmed: bool
    var twoFactorEnabled: bool
    var lockoutEnd: Option<Time>
    var lockoutEnabled: bool
    var accessFailedCount: int32
    var roles: seq<Role>
    var claims: seq<Claim>
    var logins: seq<Login>
    var createdOn: Option<Time>
    var deletedOn: Option<Time>

    /** What this user is stored as. */
    function Document(): UserDocument
      reads this, email, phoneNumber
    {
      UserDocument(id, userName, normalizedUserName,
        if email == null then Option.None else Some(email.Document()),
        normalizedEmail, emailConfirmed, passwordHash, securityStamp, concurrencyStamp,
        if phoneNumber == null then Option.None else Some(phoneNumber.Document()),
        phoneNumberConfirmed, twoFactorEnabled, lockoutEnd, lockoutEnabled,
        accessFailedCount, roles, claims, logins, createdOn, deletedOn)
    }

    /** `IdentityUser()`; `newId` and `newStamp` stand for the two
        Guid.NewGuid() values the property initializers draw. */
    constructor (newId: string, newStamp: string)
      ensures email == null && phoneNumber == null
      ensures Document() == NewUserDocument(newId, newStamp)
    {
      id := Some(newId);
      userName := Option.None;
      normalizedUserName := Option.None;
      email := null;
      normalizedEmail := Option.None;
      emailConfirmed := false;
      passwordHash := Option.None;
      securityStamp := Option.None;
      concurrencyStamp := Some(newStamp);
      phoneNumber := null;
      phoneNumberConfirmed := false;
      twoFactorEnabled := false;
      lockoutEnd := Option.None;
      lockoutEnabled := false;
      accessFailedCount := 0;
      roles := [];
      claims := [];
      logins := [];
      createdOn := Option.None;
      deletedOn := Option.None;
    }

    /** `IdentityUser(userName)`. */
    constructor WithUserName(userName: Option<string>, newId: string, newStamp: string)
      ensures email == null && phoneNumber == null
      ensures Document() == NewUserDocument(newId, newStamp).(userName := userName)
    {
      this.userName := userName;
      id := Some(newId);
      normalizedUserName := Option.None;
      email := null;
      normalizedEmail := Option.None;
      emailConfirmed := false;
      passwordHash := Option.None;
      securityStamp := Option.None;
      concurrencyStamp := Some(newStamp);
      phoneNumber := null;
      phoneNumberConfirmed := false;
      twoFactorEnabled := false;
      lockoutEnd := Option.None;
      lockoutEnabled := false;
      accessFailedCount := 0;
      roles := [];
      claims := [];
      logins := [];
      createdOn := Option.None;
      deletedOn := Option.None;
    }

    /** `ToString`: the user name. */
    function ToString(): (s: Option<string>)
      reads this
      ensures s == Document().userName
    {
      userName
    }

    method EnableTwoFactorAuthentication()
      modifies this
      ensures email == old(email) && phoneNumber == old(phoneNumber)
      ensures Document() == old(Document()).(twoFactorEnabled := true)
    {
      twoFactorEnabled := true;
    }

    method DisableTwoFactorAuthentication()
      modifies this
      ensures email == old(email) && phoneNumber == old(phoneNumber)
      ensures Document() == old(Document()).(twoFactorEnabled := false)
    {
      twoFactorEnabled := false;
    }

    method EnableLockout()
      modifies this
      ensures email == old(email) && phoneNumber == old(phoneNumber)
      ensures Document() == old(Document()).(lockoutEnabled := true)
    {
      lockoutEnabled := true;
    }

    method DisableLockout()
      modifies this
      ensures email == old(email) && phoneNumber == old(phoneNumber)
      ensures Document() == old(Document()).(lockoutEnabled := false)
    {
      lockoutEnabled := false;
    }

    /** `SetEmail(string)`: builds a `MongoUserEmail`, which throws for an
        empty address; the user is then unchanged. */
    method SetEmail(address: Option<string>) returns (o: Outcome)
      modifies this
      ensures o.Fail? <==> IsEmpty(address)
      ensures o.Fail? ==> o.error == Argument && email == old(email) && Document() == old(Document())
      ensures o.Pass? ==> fresh(email) && email.recordClass == MongoUserEmail
      ensures o.Pass? ==> Document() == old(Document()).(email := Some(ContactDocument(ContactTypes.Email, address, Option.None, false, Option.None)))
      ensures phoneNumber == old(phoneNumber)
    {
      var r := NewMongoUserEmail(address);
      if r.Err? {
        return Fail(r.error);
      }
      SetEmailRecord(r.value);
      return Pass;
    }

    /** `SetEmail(MongoUserEmail)`: stores the given record object. */
    method SetEmailRecord(record: ContactRecord?)
      requires record != null ==> record.recordClass == MongoUserEmail
      modifies this
      ensures email == record && phoneNumber == old(phoneNumber)
      ensures Document() == old(Document()).(email := if record == null then Option.None else Some(record.Document()))
    {
      email := record;
    }

    /** `SetNormalizedUserName`: ArgumentNullException for null; otherwise
        only the normalized user name changes. */
    method SetNormalizedUserName(name: Option<string>) returns (o: Outcome)
      modifies this
      ensures o == ThrowIfNull(name)
      ensures email == old(email) && phoneNumber == old(phoneNumber)
      ensures Document() == if o.Pass? then old(Document()).(normalizedUserName := name) else old(Document())
    {
      o := ThrowIfNull(name);
      if o.Pass? {
        normalizedUserName := name;
      }
    }

    /** `SetPhoneNumber(string)`: builds a `MongoUserMobile`, which throws for
        an empty number; the user is then unchanged. */
    method SetPhoneNumber(number: Option<string>) returns (o: Outcome)
      modifies this
      ensures o.Fail? <==> IsEmpty(number)
      ensures o.Fail? ==> o.error == Argument && phoneNumber == old(phoneNumber) && Document() == old(Document())
      ensures o.Pass? ==> fresh(phoneNumber) && phoneNumber.recordClass == MongoUserMobile
      ensures o.Pass? ==> Document() == old(Document()).(phoneNumber := Some(ContactDocument(ContactTypes.Mobile, number, Option.None, false, Option.None)))
      ensures email == old(email)
    {
      var r := NewMongoUserMobile(number);
      if r.Err? {
        return Fail(r.error);
      }
      SetPhoneNumberRecord(r.value);
      return Pass;
    }

    /** `SetPhoneNumber(MongoUserMobile)`: stores the given record object. */
    method SetPhoneNumberRecord(record: ContactRecord?)
      requires record != null ==> record.recordClass == MongoUserMobile
      modifies this
      ensures phoneNumber == record && email == old(email)
      ensures Document() == old(Document()).(phoneNumber := if record == null then Option.None else Some(record.Document()))
    {
      phoneNumber := record;
    }

    method SetPasswordHash(hash: Option<string>)
      modifies this
      ensures email == old(email) && phoneNumber == old(phoneNumber)
      ensures Document() == old(Document()).(passwordHash := hash)
    {
      passwordHash := hash;
    }

    method SetSecurityStamp(stamp: Option<string>)
      modifies this
      ensures email == old(email) && phoneNumber == old(phoneNumber)
      ensures Document() == old(Document()).(securityStamp := stamp)
    {
      securityStamp := stamp;
    }

    method SetAccessFailedCount(count: int32)
      modifies this
      ensures email == old(email) && phoneNumber == old(phoneNumber)
      ensures Document() == old(Document()).(accessFailedCount := count)
    {
      accessFailedCount := count;
    }

    method ResetAccessFailedCount()
      modifies this
      ensures email == old(email) && phoneNumber == old(phoneNumber)
      ensures Document() == old(Document()).(accessFailedCount := 0)
    {
      accessFailedCount := 0;
    }

    /** `LockUntil`: the lockout end becomes the given time. */
    method LockUntil(lockoutEndDate: Time)
      modifies this
      ensures email == old(email) && phoneNumber == old(phoneNumber)
      ensures Document() == old(Document()).(lockoutEnd := Some(lockoutEndDate))
    {
      lockoutEnd := Some(lockoutEndDate);
    }

    /** `AddClaim`: ArgumentNullException for null; otherwise the claim is
        appended. */
    method AddClaim(claim: Option<Claim>) returns (o: Outcome)
      modifies this
      ensures o == ThrowIfNull(claim)
      ensures email == old(email) && phoneNumber == old(phoneNumber)
      ensures Document() == if o.Pass? then old(Document()).(claims := old(claims) + [claim.value]) else old(Document())
    {
      o := ThrowIfNull(claim);
      if o.Pass? {
        claims := claims + [claim.value];
      }
    }

    /** `RemoveClaim`: ArgumentNullException for null; otherwise the first
        equal claim, if there is one, is removed. */
    method RemoveClaim(claim: Option<Claim>) returns (o: Outcome)
      modifies this
      ensures o == ThrowIfNull(claim)
      ensures email == old(email) && phoneNumber == old(phoneNumber)
      ensures Document() == if o.Pass? then old(Document()).(claims := RemoveFirst(old(claims), (c: Claim) => c == claim.value)) else old(Document())
    {
      o := ThrowIfNull(claim);
      if o.Pass? {
        claims := RemoveFirst(claims, (c: Claim) => c == claim.value);
      }
    }

    /** `AddLogin`: ArgumentNullException for null; otherwise the login is
        appended, whether or not it is already present. */
    method AddLogin(login: Option<Login>) returns (o: Outcome)
      modifies this
      ensures o == ThrowIfNull(login)
      ensures email == old(email) && phoneNumber == old(phoneNumber)
      ensures Document() == if o.Pass? then old(Document()).(logins := old(logins) + [login.value]) else old(Document())
    {
      o := ThrowIfNull(login);
      if o.Pass? {
        logins := logins + [login.value];
      }
    }

    /** `RemoveLogin`: ArgumentNullException for null; otherwise the first
        login equal to it (same provider and key) is removed. */
    method RemoveLogin(login: Option<Login>) returns (o: Outcome)
      modifies this
      ensures o == ThrowIfNull(login)
      ensures email == old(email) && phoneNumber == old(phoneNumber)
      ensures Document() == if o.Pass? then old(Document()).(logins := RemoveFirst(old(logins), LoginEquals(login.value))) else old(Document())
    {
      o := ThrowIfNull(login);
      if o.Pass? {
        logins := RemoveFirst(logins, LoginEquals(login.value));
      }
    }

    /** `Delete`: InvalidOperationException when already deleted; otherwise
        the deletion time becomes `now`, so a second `Delete` fails. */
    method Delete(now: Time) returns (o: Outcome)
      modifies this
      ensures o.Fail? <==> old(deletedOn).Some?
      ensures o.Fail? ==> o.error == InvalidOperation
      ensures deletedOn.Some? && !Active(Document())
      ensures email == old(email) && phoneNumber == old(phoneNumber)
      ensures Document() == if o.Pass? then old(Document()).(deletedOn := Some(now)) else old(Document())
    {
      if deletedOn.Some? {
        return Fail(InvalidOperation);
      }
      deletedOn := Some(now);
      return Pass;
    }
  }

  /** `IdentityUser(userName, userEmail)`: the name constructor, then a
      `MongoUserEmail` for the address, which throws for an empty one. */
  method NewUserWithEmail(userName: Option<string>, userEmail: Option<string>, newId: string, newStamp: string)
    returns (r: Result<IdentityUser>)
    ensures r.Err? <==> IsEmpty(userEmail)
    ensures r.Err? ==> r.error == Argument
    ensures r.Ok? ==> fresh(r.value) && fresh(r.value.email) && r.value.phoneNumber == null
    ensures r.Ok? ==> r.value.Document() == NewUserDocument(newId, newStamp).(userName := userName,
      email := Some(ContactDocument(ContactTypes.Email, userEmail, Option.None, false, Option.None)))
  {
    var user := new IdentityUser.WithUserName(userName, newId, newStamp);
    var o := user.SetEmail(userEmail);
    if o.Fail? {
      return Err(o.error);
    }
    return Ok(user);
  }
}
