/**
 * The User record: its callbacks (`normalize_name`, `normalize_email`,
 * `set_role`), its validations and its read-only queries.
 */
module Users {
  import opened Wrappers
  import opened Text
  import opened Roles

  /** The validation context ActiveRecord picks from `new_record?`. */
  datatype Context = OnCreate | OnUpdate

  /** One field-level message of `errors`, in declaration order. */
  datatype ValidationError = RoleMissing | NameBlank | NameTooShort | NameTooLong | NameTaken

  /** One row of the `users` table (the columns this model tracks). */
  datatype UserRow = UserRow(
    id: nat,
    name: Option<string>,
    email: Option<string>,
    roleId: Option<nat>,
    active: bool,
    createdAt: int)

  /** A key of an attribute hash: column names are strings, `description:` is a symbol. */
  datatype AttrKey = Column(column: string) | Symbol(symbol: string)

  datatype AttrValue = Nil | Str(s: string) | Bool(b: bool) | Int(i: int)

  const NameMinLength: nat := 2
  const NameMaxLength: nat := 16

  /** `name&.downcase&.titleize`: nil stays nil, anything else is normalized. */
  function NormalizedName(name: Option<string>, titleize: string -> string): (r: Option<string>)
    ensures r.None? <==> name.None?
    ensures r.Some? ==> r.value == titleize(Downcase(name.value))
  {
    if name.Some? then Some(titleize(Downcase(name.value))) else None
  }

  /**
   * `normalize_email` behind its `email.present?` guard: a present email is
   * stored lower-case; nil or blank is left untouched.
   */
  function NormalizedEmail(email: Option<string>): (r: Option<string>)
    ensures r.Some? <==> email.Some?
    ensures r.Some? ==> IsLowercase(r.value)
    ensures Present(r) <==> Present(email)
    ensures !Present(email) ==> r == email
  {
    if Present(email) then
      DowncaseKeepsBlank(email.value);
      Some(Downcase(email.value))
    else
      if email.Some? then BlankIsLowercase(email.value); email
      else email
  }

  /** `self.role ||= Role.find_by(code: :default)`. */
  function AssignedRole(role: Option<Role>, roles: seq<Role>): (r: Option<Role>)
    ensures role.Some? ==> r == role
    ensures role.None? && r.Some? ==> r.value in roles && r.value.code == DefaultCode
    ensures r.None? <==> role.None? && forall i :: 0 <= i < |roles| ==> roles[i].code != DefaultCode
  {
    if role.Some? then role else FindByCode(roles, DefaultCode)
  }

  /** The length validator reads nil as `nil.to_s`, the empty string. */
  function NameLength(name: Option<string>): (r: nat)
    ensures r == |ToS(name)|
  {
    if name.Some? then |name.value| else 0
  }

  /** Another row (not the one with id `except`) already holds `name`; nil matches NULL. */
  predicate NameTakenIn(rows: seq<UserRow>, except: Option<nat>, name: Option<string>): (r: bool)
    ensures r ==> exists x :: x in rows && x.name == name
    ensures rows == [] ==> !r
  {
    exists i :: 0 <= i < |rows| && Some(rows[i].id) != except && rows[i].name == name
  }

  /**
   * The messages `belongs_to :role` and the three `validates :name` lines add,
   * checked against the rows other than the record's own.
   */
  function ValidationErrors(name: Option<string>, role: Option<Role>, rows: seq<UserRow>, except: Option<nat>)
    : (r: seq<ValidationError>)
    ensures RoleMissing in r <==> role.None?
    ensures NameBlank in r <==> !Present(name)
    ensures NameTooShort in r <==> NameLength(name) < NameMinLength
    ensures NameTooLong in r <==> NameLength(name) > NameMaxLength
    ensures NameTaken in r <==> NameTakenIn(rows, except, name)
    ensures r == [] <==>
      && role.Some?
      && Present(name)
      && NameMinLength <= |name.value| <= NameMaxLength
      && forall i :: 0 <= i < |rows| && Some(rows[i].id) != except ==> rows[i].name != name
  {
    (if role.None? then [RoleMissing] else [])
    + (if !Present(name) then [NameBlank] else [])
    + (if NameLength(name) < NameMinLength then [NameTooShort] else [])
    + (if NameLength(name) > NameMaxLength then [NameTooLong] else [])
    + (if NameTakenIn(rows, except, name) then [NameTaken] else [])
  }

  /**
   * `attributes`: of the inherited hash keep only the `name` and `email`
   * columns, then merge the symbol key `description`.
   */
  function ExposedAttributes(raw: map<AttrKey, AttrValue>, description: string): (r: map<AttrKey, AttrValue>)
    ensures r.Keys == (raw.Keys * {Column("name"), Column("email")}) + {Symbol("description")}
    ensures forall k :: k in raw && k in r && k != Symbol("description") ==> r[k] == raw[k]
    ensures r[Symbol("description")] == Str(description)
  {
    (map k | k in raw && k in {Column("name"), Column("email")} :: raw[k])[Symbol("description") := Str(description)]
  }

  function StringOrNil(o: Option<string>): AttrValue {
    if o.Some? then Str(o.value) else Nil
  }

  /** Ruby string interpolation of a value that may be nil. */
  function ToS(o: Option<string>): string {
    if o.Some? then o.value else ""
  }

  /** An in-memory User record, mutated by its callbacks before it is saved. */
  class User {
    var id: Option<nat>
    var name: Option<string>
    var email: Option<string>
    var role: Option<Role>
    var active: bool
    var createdAt: int
    var errors: seq<ValidationError>

    /** `User.new(name:, email:, role:)`: a new record, `active` defaulting to true. */
    constructor (name: Option<string>, email: Option<string>, role: Option<Role>)
      ensures this.id == None && this.name == name && this.email == email && this.role == role
      ensures active && errors == []
    {
      this.id := None;
      this.name := name;
      this.email := email;
      this.role := role;
      this.active := true;
      this.createdAt := 0;
      this.errors := [];
    }

    method NormalizeName(titleize: string -> string)
      modifies this`name
      ensures name == NormalizedName(old(name), titleize)
    {
      if name.Some? {
        name := Some(titleize(Downcase(name.value)));
      }
    }

    method NormalizeEmail()
      modifies this`email
      ensures old(email).None? ==> email == None
      ensures old(email).Some? ==> email == Some(Downcase(old(email).value))
    {
      if email.Some? {
        email := Some(Downcase(email.value));
      }
    }

    method SetRole(roles: seq<Role>)
      modifies this`role
      ensures role == AssignedRole(old(role), roles)
    {
      if role.None? {
        role := FindByCode(roles, DefaultCode);
      }
    }

    /** The `before_validation` chain, in declaration order, with each callback's condition. */
    method RunBeforeValidation(context: Context, roles: seq<Role>, titleize: string -> string)
      modifies this`name, this`email, this`role
      ensures name == if context == OnCreate then NormalizedName(old(name), titleize) else old(name)
      ensures email == NormalizedEmail(old(email))
      ensures role == AssignedRole(old(role), roles)
    {
      if context == OnCreate {
        NormalizeName(titleize);
      }
      if Present(email) {
        NormalizeEmail();
      }
      SetRole(roles);
    }

    /** `valid?` after the callbacks: fills `errors` and reports whether it is empty. */
    method RunValidations(rows: seq<UserRow>) returns (ok: bool)
      modifies this`errors
      ensures errors == ValidationErrors(name, role, rows, id)
      ensures ok <==> errors == []
    {
      errors := ValidationErrors(name, role, rows, id);
      ok := errors == [];
    }

    /** `admin?`: `role&.code == 'admin'`, false rather than an error without a role. */
    function IsAdmin(): (r: bool)
      reads this
      ensures r ==> role.Some? && role.value.code == AdminCode
      ensures role.None? ==> !r
      ensures role.Some? && role.value.code == AdminCode ==> r
    {
      role.Some? && role.value.code == AdminCode
    }

    /**
     * `active_for_authentication?`: the framework's own check (a parameter here)
     * gated by `active`. An inactive user never authenticates; an active one
     * gets exactly the framework's answer.
     */
    function ActiveForAuthentication(baseAuthenticated: bool): (r: bool)
      reads this
      ensures !active ==> !r
      ensures active ==> r == baseAuthenticated
    {
      baseAuthenticated && active
    }

    /**
     * `description`: `"#{name} (#{email})"`. Name and email can be read back
     * from it at known offsets.
     */
    function Description(): (r: string)
      reads this
      ensures |r| == |ToS(name)| + |ToS(email)| + 3
      ensures r[..|ToS(name)|] == ToS(name)
      ensures r[|ToS(name)|..|ToS(name)| + 2] == " ("
      ensures r[|ToS(name)| + 2..|r| - 1] == ToS(email)
      ensures r[|r| - 1] == ')'
    {
      ToS(name) + " (" + ToS(email) + ")"
    }

    /** The inherited attribute hash of the columns this model tracks. */
    function ColumnAttributes(): (r: map<AttrKey, AttrValue>)
      reads this
      ensures Column("name") in r && r[Column("name")] == StringOrNil(name)
      ensures Column("email") in r && r[Column("email")] == StringOrNil(email)
      ensures forall k :: k in r ==> k.Column?
    {
      map[
        Column("id") := if id.Some? then Int(id.value) else Nil,
        Column("name") := StringOrNil(name),
        Column("email") := StringOrNil(email),
        Column("active") := Bool(active),
        Column("role_id") := if role.Some? then Int(role.value.id) else Nil,
        Column("created_at") := Int(createdAt)]
    }

    /** `attributes`: exactly name, email and description. */
    function Attributes(): (r: map<AttrKey, AttrValue>)
      reads this
      ensures r.Keys == {Column("name"), Column("email"), Symbol("description")}
      ensures r[Column("name")] == StringOrNil(name)
      ensures r[Column("email")] == StringOrNil(email)
      ensures r[Symbol("description")] == Str(Description())
    {
      var raw := ColumnAttributes();
      assert raw.Keys * {Column("name"), Column("email")} == {Column("name"), Column("email")};
      ExposedAttributes(raw, Description())
    }
  }

  /** Two names that differ only in letter case normalize to the same stored name. */
  lemma NormalizedNameIgnoresCase(a: string, b: string, titleize: string -> string)
    requires SameUpToCase(a, b)
    ensures NormalizedName(Some(a), titleize) == NormalizedName(Some(b), titleize)
  {
    SameUpToCaseDowncase(a, b);
  }

  /** A nil name stays nil through `normalize_name` and fails presence and length. */
  lemma NilNameRejected(role: Option<Role>, rows: seq<UserRow>, except: Option<nat>, titleize: string -> string)
    ensures NormalizedName(None, titleize) == None
    ensures NameBlank in ValidationErrors(None, role, rows, except)
    ensures NameTooShort in ValidationErrors(None, role, rows, except)
  {
  }

  /** Normalizing an email twice is normalizing it once. */
  lemma NormalizedEmailIdempotent(email: Option<string>)
    ensures NormalizedEmail(NormalizedEmail(email)) == NormalizedEmail(email)
  {
    if Present(email) {
      DowncaseIdempotent(email.value);
    }
  }

  /** A role assigned by default is never the admin role. */
  lemma DefaultRoleIsNotAdmin(roles: seq<Role>)
    ensures AssignedRole(None, roles).Some? ==> AssignedRole(None, roles).value.code != AdminCode
  {
  }

  /** Given the name, the description determines the email. */
  lemma DescriptionDeterminesEmail(u: User, v: User)
    requires u.name == v.name
    requires u.Description() == v.Description()
    ensures ToS(u.email) == ToS(v.email)
  {
    var n := |ToS(u.name)|;
    assert ToS(u.email) == u.Description()[n + 2..|u.Description()| - 1];
  }

  lemma DescriptionExample(u: User)
    requires u.name == Some("Ann") && u.email == Some("ann@x.com")
    ensures u.Description() == "Ann (ann@x.com)"
  {
  }
}
