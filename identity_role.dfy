/** A role (IdentityRole.cs): a plain record of settable properties. */
module IdentityRoles {
  import opened Common
  import opened Credentials

  datatype Role = Role(
    id: Option<string>,
    name: Option<string>,
    normalizedName: Option<string>,
    concurrencyStamp: Option<string>,
    claims: seq<Claim>)

  /** `IdentityRole()`: unlike a user's, the Id is not generated and stays
      null; the name and normalized name are unset; the concurrency stamp is
      a fresh GUID string (`stamp`); there are no claims. */
  function NewRole(stamp: string): (r: Role)
    ensures r.id.None? && r.name.None? && r.normalizedName.None?
    ensures r.concurrencyStamp == Some(stamp)
    ensures r.claims == []
  {
    Role(Option.None, Option.None, Option.None, Some(stamp), [])
  }

  /** `IdentityRole(roleName)`: the parameterless constructor, then the name. */
  function NewNamedRole(roleName: Option<string>, stamp: string): (r: Role)
    ensures r.name == roleName
    ensures r.id.None? && r.normalizedName.None?
    ensures r.concurrencyStamp.Some? && r.claims == []
  {
    NewRole(stamp).(name := roleName)
  }
}
