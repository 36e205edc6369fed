/** The roles table, a pre-seeded lookup of permission tiers by code. */
module Roles {
  import opened Wrappers

  datatype Role = Role(id: nat, code: string)

  const DefaultCode: string := "default"
  const AdminCode: string := "admin"

  /**
   * `Role.find_by(code: code)`: a role with that code, or nil when the table
   * has none. Several rows with one code are not ordered by the query; this
   * model answers with the first in table order.
   */
  function FindByCode(roles: seq<Role>, code: string): (r: Option<Role>)
    ensures r.Some? ==> r.value in roles && r.value.code == code
    ensures r.None? <==> forall i :: 0 <= i < |roles| ==> roles[i].code != code
  {
    if roles == [] then None
    else if roles[0].code == code then Some(roles[0])
    else FindByCode(roles[1..], code)
  }

  /** The value stored in a `role_id` column for an associated role, or NULL. */
  function RoleIdOf(role: Option<Role>): Option<nat> {
    if role.Some? then Some(role.value.id) else None
  }
}
