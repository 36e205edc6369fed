/**
 * The `users` table and the save path that writes to it: the
 * `before_validation` callbacks, then validation, then an insert or an update
 * only when no validation failed. Also the `default`, `fresh` and
 * `default_fresh` scopes as filters over the table.
 */
module Store {
  import opened Wrappers
  import opened Text
  import opened Roles
  import opened Users

  predicate EmailNormalized(email: Option<string>) {
    email.None? || IsLowercase(email.value)
  }

  /** What every stored row satisfies once it passed the save path. */
  predicate RowValid(r: UserRow) {
    && Present(r.name)
    && NameMinLength <= |r.name.value| <= NameMaxLength
    && r.roleId.Some?
    && EmailNormalized(r.email)
  }

  /** The table invariant: valid rows, ids below the sequence, ids and names unique. */
  predicate TableValid(rows: seq<UserRow>, nextId: nat): (r: bool)
    ensures rows == [] ==> r
    ensures r ==> forall i, j :: 0 <= i < |rows| && 0 <= j < |rows| && rows[i].name == rows[j].name ==> i == j
  {
    && (forall i :: 0 <= i < |rows| ==> RowValid(rows[i]) && rows[i].id < nextId)
    && (forall i, j :: 0 <= i < j < |rows| ==> rows[i].id != rows[j].id && rows[i].name != rows[j].name)
  }

  /** The row with id `id` (if any) takes the record's current column values. */
  function ApplyUpdate(rows: seq<UserRow>, id: nat, name: Option<string>, email: Option<string>,
                       roleId: Option<nat>, active: bool): (r: seq<UserRow>)
    ensures |r| == |rows|
    ensures forall i :: 0 <= i < |rows| ==>
      r[i] == if rows[i].id == id then rows[i].(name := name, email := email, roleId := roleId, active := active)
              else rows[i]
  {
    if rows == [] then []
    else
      var head := if rows[0].id == id then rows[0].(name := name, email := email, roleId := roleId, active := active)
                  else rows[0];
      [head] + ApplyUpdate(rows[1..], id, name, email, roleId, active)
  }

  /** `where(role_id: ...)`: rows whose role id equals the given one (NULL matches NULL). */
  function WhereRoleId(rows: seq<UserRow>, roleId: Option<nat>): (r: seq<UserRow>)
    ensures |r| <= |rows|
    ensures forall x :: x in r <==> x in rows && x.roleId == roleId
  {
    if rows == [] then []
    else (if rows[0].roleId == roleId then [rows[0]] else []) + WhereRoleId(rows[1..], roleId)
  }

  /** `where('created_at > ?', since)`. */
  function WhereCreatedAfter(rows: seq<UserRow>, since: int): (r: seq<UserRow>)
    ensures |r| <= |rows|
    ensures forall x :: x in r <==> x in rows && x.createdAt > since
  {
    if rows == [] then []
    else (if rows[0].createdAt > since then [rows[0]] else []) + WhereCreatedAfter(rows[1..], since)
  }

  /** The two filters commute, so `default.fresh(t)` is also `fresh(t).default`, in table order. */
  lemma {:induction false} FiltersCommute(rows: seq<UserRow>, roleId: Option<nat>, since: int)
    ensures WhereCreatedAfter(WhereRoleId(rows, roleId), since) == WhereRoleId(WhereCreatedAfter(rows, since), roleId)
  {
    if rows != [] {
      FiltersCommute(rows[1..], roleId, since);
      var h := rows[0];
      var a := if h.roleId == roleId then [h] else [];
      var b := if h.createdAt > since then [h] else [];
      assert WhereRoleId(rows, roleId) == a + WhereRoleId(rows[1..], roleId);
      assert WhereCreatedAfter(rows, since) == b + WhereCreatedAfter(rows[1..], since);
      WhereCreatedAfterConcat(a, WhereRoleId(rows[1..], roleId), since);
      WhereRoleIdConcat(b, WhereCreatedAfter(rows[1..], since), roleId);
    }
  }

  lemma {:induction false} WhereRoleIdConcat(s: seq<UserRow>, t: seq<UserRow>, roleId: Option<nat>)
    ensures WhereRoleId(s + t, roleId) == WhereRoleId(s, roleId) + WhereRoleId(t, roleId)
  {
    if s != [] {
      assert (s + t)[1..] == s[1..] + t;
      WhereRoleIdConcat(s[1..], t, roleId);
    } else {
      assert s + t == t;
    }
  }

  lemma {:induction false} WhereCreatedAfterConcat(s: seq<UserRow>, t: seq<UserRow>, since: int)
    ensures WhereCreatedAfter(s + t, since) == WhereCreatedAfter(s, since) + WhereCreatedAfter(t, since)
  {
    if s != [] {
      assert (s + t)[1..] == s[1..] + t;
      WhereCreatedAfterConcat(s[1..], t, since);
    } else {
      assert s + t == t;
    }
  }

  /** Without a `default` role the scope asks for NULL role ids, and no valid row has one. */
  lemma {:induction false} NoDefaultRoleNoDefaultUsers(rows: seq<UserRow>, nextId: nat)
    requires TableValid(rows, nextId)
    ensures WhereRoleId(rows, None) == []
  {
    if rows != [] {
      NoDefaultRoleNoDefaultUsers(rows[1..], nextId);
    }
  }

  /** The users table together with the roles table and the library `titleize`. */
  class UserStore {
    const roles: seq<Role>
    const titleize: string -> string
    var rows: seq<UserRow>
    var nextId: nat

    ghost predicate Valid()
      reads this
    {
      TableValid(rows, nextId)
    }

    constructor (roles: seq<Role>, titleize: string -> string)
      ensures Valid() && this.roles == roles && this.titleize == titleize && rows == []
    {
      this.roles := roles;
      this.titleize := titleize;
      this.rows := [];
      this.nextId := 1;
    }

    /** `save`: the create path for a new record, the update path for a persisted one. */
    method Save(u: User, now: int) returns (ok: bool)
      requires Valid()
      modifies this`rows, this`nextId, u
      ensures Valid()
      ensures ok <==> u.errors == []
      ensures !ok ==> rows == old(rows) && nextId == old(nextId) && u.id == old(u.id) && u.createdAt == old(u.createdAt)
      ensures u.email == NormalizedEmail(old(u.email))
      ensures u.role == AssignedRole(old(u.role), roles)
      ensures u.active == old(u.active)
      ensures old(u.id).None? ==> u.name == NormalizedName(old(u.name), titleize)
      ensures old(u.id).None? && ok ==>
        && u.id == Some(old(nextId)) && u.createdAt == now
        && rows == old(rows) + [UserRow(old(nextId), u.name, u.email, RoleIdOf(u.role), u.active, now)]
      ensures old(u.id).Some? ==> u.name == old(u.name) && u.id == old(u.id) && u.createdAt == old(u.createdAt)
      ensures old(u.id).Some? && ok ==>
        && nextId == old(nextId)
        && rows == ApplyUpdate(old(rows), u.id.value, u.name, u.email, RoleIdOf(u.role), u.active)
      ensures u.errors == ValidationErrors(u.name, u.role, old(rows), old(u.id))
    {
      if u.id.None? {
        ok := Create(u, now);
      } else {
        ok := Update(u);
      }
    }

    /**
     * The create path: normalize name and email, assign the default role,
     * validate against every stored row, and insert only on success.
     */
    method Create(u: User, now: int) returns (ok: bool)
      requires Valid()
      requires u.id.None?
      modifies this`rows, this`nextId, u
      ensures Valid()
      ensures u.name == NormalizedName(old(u.name), titleize)
      ensures u.email == NormalizedEmail(old(u.email))
      ensures u.role == AssignedRole(old(u.role), roles)
      ensures u.active == old(u.active)
      ensures u.errors == ValidationErrors(u.name, u.role, old(rows), None)
      ensures ok <==> u.errors == []
      ensures ok ==> && u.id == Some(old(nextId)) && u.createdAt == now
                     && rows == old(rows) + [UserRow(old(nextId), u.name, u.email, RoleIdOf(u.role), u.active, now)]
      ensures !ok ==> && u.id == None && u.createdAt == old(u.createdAt)
                      && rows == old(rows) && nextId == old(nextId)
    {
      u.RunBeforeValidation(OnCreate, roles, titleize);
      ok := u.RunValidations(rows);
      if ok {
        u.id := Some(nextId);
        u.createdAt := now;
        var row := UserRow(nextId, u.name, u.email, RoleIdOf(u.role), u.active, now);
        assert RowValid(row);
        rows := rows + [row];
        nextId := nextId + 1;
      }
    }

    /**
     * The update path: the name is not normalized again, the email is, a
     * missing role gets the default; validate against the other rows and
     * write the record's columns into its row only on success.
     */
    method Update(u: User) returns (ok: bool)
      requires Valid()
      requires u.id.Some?
      modifies this`rows, u
      ensures Valid()
      ensures u.name == old(u.name)
      ensures u.email == NormalizedEmail(old(u.email))
      ensures u.role == AssignedRole(old(u.role), roles)
      ensures u.id == old(u.id) && u.active == old(u.active) && u.createdAt == old(u.createdAt)
      ensures u.errors == ValidationErrors(u.name, u.role, old(rows), u.id)
      ensures ok <==> u.errors == []
      ensures ok ==> rows == ApplyUpdate(old(rows), u.id.value, u.name, u.email, RoleIdOf(u.role), u.active)
      ensures !ok ==> rows == old(rows)
    {
      u.RunBeforeValidation(OnUpdate, roles, titleize);
      ok := u.RunValidations(rows);
      if ok {
        var id := u.id.value;
        var updated := ApplyUpdate(rows, id, u.name, u.email, RoleIdOf(u.role), u.active);
        forall i, j | 0 <= i < j < |updated|
          ensures updated[i].id != updated[j].id && updated[i].name != updated[j].name
        {
          if rows[i].id == id {
            assert rows[j].name != u.name;
          } else if rows[j].id == id {
            assert rows[i].name != u.name;
          }
        }
        rows := updated;
      }
    }

    /** `User.default`: users whose role is the role coded `default`. */
    function DefaultUsers(): (r: seq<UserRow>)
      reads this
      ensures forall x :: x in r <==> x in rows && x.roleId == RoleIdOf(FindByCode(roles, DefaultCode))
    {
      WhereRoleId(rows, RoleIdOf(FindByCode(roles, DefaultCode)))
    }

    /** `User.fresh(since)`: users created strictly after `since`. */
    function FreshUsers(since: int): (r: seq<UserRow>)
      reads this
      ensures forall x :: x in r <==> x in rows && x.createdAt > since
    {
      WhereCreatedAfter(rows, since)
    }

    /**
     * `User.default_fresh(since)`: `default.fresh(since)`, exactly the users in
     * both scopes, in table order whichever scope is applied first.
     */
    function DefaultFreshUsers(since: int): (r: seq<UserRow>)
      reads this
      ensures forall x :: x in r <==> x in DefaultUsers() && x in FreshUsers(since)
      ensures r == WhereRoleId(FreshUsers(since), RoleIdOf(FindByCode(roles, DefaultCode)))
    {
      FiltersCommute(rows, RoleIdOf(FindByCode(roles, DefaultCode)), since);
      WhereCreatedAfter(DefaultUsers(), since)
    }
  }

  /**
   * Two users whose names differ only in case: once the first is stored, the
   * second fails the uniqueness check.
   */
  method SameNameDifferentCase(store: UserStore, a: string, b: string, now: int) returns (first: bool, second: bool)
    requires store.Valid()
    requires SameUpToCase(a, b)
    modifies store
    ensures store.Valid()
    ensures first ==> !second
  {
    NormalizedNameIgnoresCase(a, b, store.titleize);
    var u := new User(Some(a), None, None);
    first := store.Create(u, now);
    ghost var afterFirst := store.rows;
    var v := new User(Some(b), None, None);
    second := store.Create(v, now);
    if first {
      assert afterFirst[|afterFirst| - 1].name == v.name;
      assert NameTakenIn(afterFirst, None, v.name);
    }
  }

  /** A new user without a role gets the `default` role; one with a role keeps it. */
  method RoleAssignment(store: UserStore, name: string, explicit: Role, now: int) returns (withoutRole: User, withRole: User)
    requires store.Valid()
    modifies store
    ensures store.Valid()
    ensures withoutRole.role == FindByCode(store.roles, DefaultCode)
    ensures withRole.role == Some(explicit)
    ensures !withoutRole.IsAdmin()
  {
    withoutRole := new User(Some(name), None, None);
    var _ := store.Save(withoutRole, now);
    withRole := new User(Some(name), None, Some(explicit));
    var _ := store.Save(withRole, now);
  }
}
