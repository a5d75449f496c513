/** The records a user owns besides its contact records: external logins
    and claims. Their C# classes (`UserLogin`/`MongoUserLogin`,
    `MongoUserClaim`) are not part of this model; a login is identified by
    its provider and provider key, which is what the store matches logins on. */
module Credentials {
  import opened Sequences

  /** An external login binding (UserLoginInfo / UserLogin). */
  datatype Login = Login(loginProvider: string, providerKey: string, providerDisplayName: string)

  /** A security claim. */
  datatype Claim = Claim(claimType: string, claimValue: string)

  /** Login equality: the same provider and the same key, whatever the
      display names. */
  predicate SameLogin(a: Login, b: Login) {
    a.loginProvider == b.loginProvider && a.providerKey == b.providerKey
  }

  /** The login matches the given provider and key. */
  predicate HasKey(loginProvider: string, providerKey: string, l: Login) {
    l.loginProvider == loginProvider && l.providerKey == providerKey
  }

  /** The filter for logins equal to `login`. */
  function LoginEquals(login: Login): Login -> bool {
    (l: Login) => SameLogin(l, login)
  }

  /** The filter for logins with the given provider and key. */
  function LoginKey(loginProvider: string, providerKey: string): Login -> bool {
    (l: Login) => HasKey(loginProvider, providerKey, l)
  }

  /** No two logins of a list have the same provider and key. */
  predicate UniqueLogins(logins: seq<Login>) {
    forall i, j :: 0 <= i < j < |logins| ==> !SameLogin(logins[i], logins[j])
  }

  /** Appending a login whose provider and key are not yet present keeps the
      list free of duplicates. */
  lemma {:induction false} AppendKeepsUnique(logins: seq<Login>, l: Login)
    requires UniqueLogins(logins)
    requires !Any(logins, LoginEquals(l))
    ensures UniqueLogins(logins + [l])
  {
    var s := logins + [l];
    forall i, j | 0 <= i < j < |s|
      ensures !SameLogin(s[i], s[j])
    {
      if j == |logins| {
        assert s[i] == logins[i];
        assert !LoginEquals(l)(logins[i]);
      }
    }
  }

  /** Removing the first login with a given provider and key from a list
      without duplicates keeps it without duplicates and leaves no login with
      that provider and key, so the same login can be added again. */
  lemma {:induction false} RemoveLeavesNoMatch(logins: seq<Login>, loginProvider: string, providerKey: string)
    requires UniqueLogins(logins)
    ensures var r := RemoveFirst(logins, LoginKey(loginProvider, providerKey));
      UniqueLogins(r) && !Any(r, LoginKey(loginProvider, providerKey))
  {
    var p := LoginKey(loginProvider, providerKey);
    var r := RemoveFirst(logins, p);
    match FirstIndex(logins, p)
    case None =>
    case Some(k) =>
      forall i | 0 <= i < |r|
        ensures !p(r[i])
      {
        RemoveFirstAt(logins, p, i);
        var i' := if i < k then i else i + 1;
        assert r[i] == logins[i'];
        if k < i' {
          assert !SameLogin(logins[k], logins[i']);
        }
      }
      forall i, j | 0 <= i < j < |r|
        ensures !SameLogin(r[i], r[j])
      {
        RemoveFirstAt(logins, p, i);
        RemoveFirstAt(logins, p, j);
        var i' := if i < k then i else i + 1;
        var j' := if j < k then j else j + 1;
        assert r[i] == logins[i'] && r[j] == logins[j'] && i' < j';
      }
  }
}
