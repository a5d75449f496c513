/** The role store (IdentityRoleStore.cs): insert, replace-by-Id and hard
    delete over the roles collection. Its guard checks disposal before
    cancellation, the reverse of the user store's order. */
module IdentityRoleStores {
  import opened Common
  import opened Sequences
  import opened IdentityRoles
  import opened DocumentCollections

  /** The `_id` of a role document. */
  function RoleId(r: Role): Option<string> {
    r.id
  }

  /** `r.Id == id`. */
  function RoleWithId(id: Option<string>): Role -> bool {
    (r: Role) => r.id == id
  }

  /** `ThrowIfParaNull(params object[])`: ArgumentNullException when an
      argument is null (null arguments are `None`); an empty argument list
      passes. */
  function ThrowIfParaNull<T>(paras: seq<Option<T>>): (o: Outcome)
    ensures o.Fail? <==> exists i :: 0 <= i < |paras| && paras[i].None?
    ensures o.Fail? ==> o.error == ArgumentNull
  {
    if |paras| == 0 then Pass
    else if paras[0].None? then Fail(ArgumentNull)
    else
      var rest := ThrowIfParaNull(paras[1..]);
      assert forall i :: 1 <= i < |paras| ==> paras[i] == paras[1..][i - 1];
      rest
  }

  class RoleStore {
    var disposed: bool
    /** The roles collection. */
    var roles: seq<Role>

    /** The collection's `_id` index keeps role Ids unique. */
    ghost predicate Valid()
      reads this
    {
      UniqueKeys(roles, RoleId)
    }

    constructor (roles: seq<Role>)
      requires UniqueKeys(roles, RoleId)
      ensures Valid() && !disposed && this.roles == roles
    {
      disposed := false;
      this.roles := roles;
    }

    /** `ThrowIfCancelOrParaNull`: ObjectDisposed, then OperationCanceled,
        then ArgumentNull. */
    function ThrowIfCancelOrParaNull(cancel: bool, role: Option<Role>): (o: Outcome)
      reads this
      ensures o.Pass? <==> !disposed && !cancel && role.Some?
      ensures disposed ==> o == Fail(ObjectDisposed)
      ensures !disposed && cancel ==> o == Fail(OperationCanceled)
      ensures !disposed && !cancel && role.None? ==> o == Fail(ArgumentNull)
    {
      var o := (if disposed then Fail(ObjectDisposed) else Pass)
        .Then(if cancel then Fail(OperationCanceled) else Pass)
        .Then(ThrowIfParaNull([role]));
      assert role.None? ==> [role][0].None?;
      o
    }

    /** `Dispose`: every later guarded operation throws ObjectDisposed. */
    method Dispose()
      modifies this
      ensures disposed && roles == old(roles)
      ensures forall cancel, role :: ThrowIfCancelOrParaNull(cancel, role) == Fail(ObjectDisposed)
    {
      disposed := true;
    }

    /** `CreateAsync`: inserts the role; the `_id` index rejects an Id already
        stored. Roles are created with a null Id, so a second such role is
        rejected too. */
    method Create(role: Option<Role>, cancel: bool) returns (r: Result<IdentityResult>)
      requires Valid()
      modifies this
      ensures Valid() && disposed == old(disposed)
      ensures r.Err? <==> ThrowIfCancelOrParaNull(cancel, role).Fail? || Any(old(roles), RoleWithId(role.value.id))
      ensures r.Err? ==> roles == old(roles)
      ensures r.Err? && ThrowIfCancelOrParaNull(cancel, role).Pass? ==> r.error == DuplicateKey
      ensures r.Ok? ==> r.value == Succeeded && roles == old(roles) + [role.value]
    {
      var check := ThrowIfCancelOrParaNull(cancel, role);
      if check.Fail? {
        return Err(check.error);
      }
      var d := role.value;
      var inserted := InsertOne(roles, d, RoleId);
      assert forall i :: 0 <= i < |roles| ==> (RoleId(roles[i]) == RoleId(d) <==> RoleWithId(d.id)(roles[i]));
      if inserted.Err? {
        return Err(inserted.error);
      }
      InsertKeepsUnique(roles, d, RoleId);
      roles := inserted.value;
      return Ok(Succeeded);
    }

    /** `UpdateAsync`: the first role with the same Id is replaced (no
        concurrency-stamp condition), and then NotImplementedException is
        thrown: the write stays, the caller sees an error. */
    method Update(role: Option<Role>, cancel: bool) returns (r: Result<IdentityResult>)
      requires Valid()
      modifies this
      ensures Valid() && disposed == old(disposed)
      ensures r.Err?
      ensures ThrowIfCancelOrParaNull(cancel, role).Fail? ==>
        r.error == ThrowIfCancelOrParaNull(cancel, role).error && roles == old(roles)
      ensures ThrowIfCancelOrParaNull(cancel, role).Pass? ==>
        r.error == NotImplemented && roles == ReplaceOne(old(roles), RoleWithId(role.value.id), role.value).docs
    {
      var check := ThrowIfCancelOrParaNull(cancel, role);
      if check.Fail? {
        return Err(check.error);
      }
      var d := role.value;
      var w := ReplaceOne(roles, RoleWithId(d.id), d);
      if w.matched {
        OverwriteKeepsUnique(roles, FirstIndex(roles, RoleWithId(d.id)).value, d, RoleId);
      }
      roles := w.docs;
      return Err(NotImplemented);
    }

    /** `DeleteAsync`: removes the first role with the same Id — a hard
        delete — and reports success whether or not one matched. */
    method Delete(role: Option<Role>, cancel: bool) returns (r: Result<IdentityResult>)
      requires Valid()
      modifies this
      ensures Valid() && disposed == old(disposed)
      ensures r.Err? <==> ThrowIfCancelOrParaNull(cancel, role).Fail?
      ensures r.Err? ==> r.error == ThrowIfCancelOrParaNull(cancel, role).error && roles == old(roles)
      ensures r.Ok? ==> r.value == Succeeded && roles == DeleteOne(old(roles), RoleWithId(role.value.id))
    {
      var check := ThrowIfCancelOrParaNull(cancel, role);
      if check.Fail? {
        return Err(check.error);
      }
      DeleteKeepsUnique(roles, RoleWithId(role.value.id), RoleId);
      roles := DeleteOne(roles, RoleWithId(role.value.id));
      return Ok(Succeeded);
    }

    /** `GetRoleIdAsync`: the role's Id, as stored (possibly null). */
    function GetRoleId(role: Option<Role>, cancel: bool): (r: Result<Option<string>>)
      reads this
      ensures r.Err? <==> ThrowIfCancelOrParaNull(cancel, role).Fail?
      ensures r.Err? ==> r.error == ThrowIfCancelOrParaNull(cancel, role).error
      ensures r.Ok? ==> r.value == role.value.id
    {
      var check := ThrowIfCancelOrParaNull(cancel, role);
      if check.Fail? then Err(check.error) else Ok(role.value.id)
    }
  }

  /** `RoleStore(roles)`: ArgumentNullException for a null collection. */
  method NewRoleStore(roles: Option<seq<Role>>) returns (r: Result<RoleStore>)
    requires roles.Some? ==> UniqueKeys(roles.value, RoleId)
    ensures r.Err? <==> roles.None?
    ensures r.Err? ==> r.error == ArgumentNull
    ensures r.Ok? ==> fresh(r.value) && r.value.Valid() && !r.value.disposed && r.value.roles == roles.value
  {
    var check := ThrowIfParaNull([roles]);
    assert roles.None? ==> [roles][0].None?;
    if check.Fail? {
      return Err(check.error);
    }
    var store := new RoleStore(roles.value);
    return Ok(store);
  }

  /** After a delete, no role with that Id is left (Ids being unique). */
  lemma {:induction false} DeleteRemovesId(roles: seq<Role>, id: Option<string>)
    requires UniqueKeys(roles, RoleId)
    ensures !Any(DeleteOne(roles, RoleWithId(id)), RoleWithId(id))
    ensures Any(roles, RoleWithId(id)) ==> |DeleteOne(roles, RoleWithId(id))| == |roles| - 1
  {
    var p := RoleWithId(id);
    var r := DeleteOne(roles, p);
    if Any(roles, p) {
      var k := FirstIndex(roles, p).value;
      forall i | 0 <= i < |r|
        ensures !p(r[i])
      {
        RemoveFirstAt(roles, p, i);
        var i' := if i < k then i else i + 1;
        assert r[i] == roles[i'];
        assert RoleId(roles[i']) != RoleId(roles[k]);
      }
    }
  }

  /** Two roles built by the constructor both have a null Id, so the second
      `CreateAsync` over the same collection is rejected. */
  lemma SecondNewRoleCollides(roles: seq<Role>, stamp1: string, stamp2: string)
    requires !Any(roles, RoleWithId(Option.None))
    ensures InsertOne(roles, NewRole(stamp1), RoleId).Ok?
    ensures InsertOne(InsertOne(roles, NewRole(stamp1), RoleId).value, NewRole(stamp2), RoleId) == Err(DuplicateKey)
  {
    var first := NewRole(stamp1);
    assert forall i :: 0 <= i < |roles| ==> RoleId(roles[i]) != RoleId(first) by {
      forall i | 0 <= i < |roles|
        ensures RoleId(roles[i]) != RoleId(first)
      {
        assert !RoleWithId(Option.None)(roles[i]);
      }
    }
    var after := roles + [first];
    assert after[|roles|] == first;
    assert RoleId(after[|roles|]) == RoleId(NewRole(stamp2));
  }
}
