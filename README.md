# User record lifecycle — a Dafny model

This project models the `User` model of a small Rails events site
(`app/models/user.rb`): the write path that runs the `before_validation`
callbacks (`normalize_name` on create, `normalize_email` when an email is
present, `set_role` on create and update), then the `belongs_to :role` and
`validates :name` checks, and inserts or updates a row of the `users` table
only when no check failed; and the read-only queries `admin?`,
`active_for_authentication?`, `attributes`, `description` and the scopes
`default`, `fresh` and `default_fresh`.

Layout:

- `wrappers.dfy` — `Option`, for a value that may be `nil`.
- `text.dfy` — `blank?`/`present?` and `String#downcase`.
- `roles.dfy` — the roles table and `Role.find_by(code:)`.
- `users.dfy` — the `User` class (its fields, callbacks, validation and queries)
  and the pure functions that specify them.
- `store.dfy` — the `users` table (`UserStore`) with its invariant, the save
  path, and the scopes.

The table invariant `Store.TableValid` says every stored row has a present name of
2 to 16 characters, a role, an email that is nil or lower-case, an id below
the id sequence, and that ids and names are unique. `Create`, `Update` and
`Save` preserve it.

Behaviour of the code worth knowing:

- `normalize_name` applies `downcase.titleize` to every non-nil name, the empty
  string included.
- An update does not normalize the name again, so a name changed on update is
  stored as given; stored names are therefore not always in title case
  (`Store.UserStore.Update`).
- `attributes` merges the symbol key `:description` into a hash whose other keys
  are strings; the model keeps the two kinds of key apart (`Users.AttrKey`).
- With no role coded `default`, the `default` scope compares `role_id` with NULL;
  it then returns the users without a role, which the invariant rules out, so it
  is empty (`Store.NoDefaultRoleNoDefaultUsers`).
- Updating a record whose row is gone writes no row, yet `save` still reports
  success, since the update does not check how many rows it changed.

## Model

| member | source | states |
|---|---|---|
| `Text.Downcase` | app/models/user.rb:104 | the lower-cased email has the same length, every letter lowered and no upper-case letter left |
| `Text.DowncaseFixes` | app/models/user.rb:104 | downcasing leaves a string unchanged exactly when it has no upper-case letter |
| `Text.DowncaseIdempotent` | app/models/user.rb:103-105 | downcasing twice is downcasing once |
| `Text.BlankIsLowercase` | app/models/user.rb:43 | a blank email, which the guard leaves untouched, is already lower-case |
| `Text.DowncaseKeepsBlank` | app/models/user.rb:43 | downcasing neither makes a present email blank nor a blank one present |
| `Roles.FindByCode` | app/models/user.rb:108 | the role found has the requested code and comes from the roles table; nil exactly when no role has that code |
| `Users.NormalizedEmail` | app/models/user.rb:43 | after the guarded callback an email is nil exactly when it was, is lower-case, is present exactly when it was, and a nil or blank email is unchanged |
| `Users.AssignedRole` | app/models/user.rb:107-109 | an assigned role is never replaced; an unset one becomes a role coded `default` from the table; nil remains only when the table has no such role |
| `Users.ValidationErrors` | app/models/user.rb:59-62 | one message per failed check (missing role, blank name, shorter than 2, longer than 16, name held by another row, nil matching NULL); no message exactly when a role is set and the name is present, 2 to 16 characters and differs from every other row's name |
| `Users.ExposedAttributes` | app/models/user.rb:82 | whatever the inherited hash holds, only its `name` and `email` keys survive, with their values, plus the symbol key `description` |
| `Users.User.constructor` | app/models/user.rb:8 | a new record has no id, no errors, the given name, email and role, and `active` true |
| `Users.User.NormalizeName` | app/models/user.rb:99-101 | a non-nil name becomes titleize(downcase(name)); nil stays nil; nothing else changes |
| `Users.User.NormalizeEmail` | app/models/user.rb:103-105 | a non-nil email becomes its downcase; nil stays nil; nothing else changes |
| `Users.User.SetRole` | app/models/user.rb:107-109 | the role becomes `AssignedRole` of the old role; nothing else changes |
| `Users.User.RunBeforeValidation` | app/models/user.rb:42-44 | the three callbacks in declaration order: the name is normalized only on create, the email only when present, the role on create and update |
| `Users.User.RunValidations` | app/models/user.rb:59-62 | `errors` are the messages for the record's current (already normalized) fields against the other rows; the record is valid exactly when there are none |
| `Users.User.IsAdmin` | app/models/user.rb:73-75 | true exactly when a role is set and its code is `admin`; false without a role |
| `Users.User.ActiveForAuthentication` | app/models/user.rb:77-79 | an inactive user never authenticates; an active user gets exactly the framework's own answer |
| `Users.User.Description` | app/models/user.rb:85-87 | the description is the name, ` (`, the email and `)`, each readable back at its offset, nil read as empty |
| `Users.User.Attributes` | app/models/user.rb:81-83 | the hash has exactly the keys `name`, `email` and `:description`, holding the name, the email and the description |
| `Users.NormalizedNameIgnoresCase` | app/models/user.rb:100 | two names that differ position by position only in letter case are stored as the same name |
| `Users.NilNameRejected` | app/models/user.rb:60-61 | a nil name stays nil through `normalize_name` and fails both the presence and the length check |
| `Users.NormalizedEmailIdempotent` | app/models/user.rb:103-105 | normalizing an email a second time changes nothing |
| `Users.DefaultRoleIsNotAdmin` | app/models/user.rb:73-75 | a user whose role was filled in by `set_role` is never an admin |
| `Users.DescriptionDeterminesEmail` | app/models/user.rb:86 | two users with the same name and the same description have the same `email.to_s` (nil and empty alike) |
| `Users.DescriptionExample` | app/models/user.rb:85-87 | name `Ann` and email `ann@x.com` give `Ann (ann@x.com)` |
| `Text.IsBlank` | app/models/user.rb:43 | `blank?`: the empty string is blank, and a blank string has no upper-case letter |
| `Text.Present` | app/models/user.rb:60 | `present?`: a present value is non-nil and non-empty |
| `Text.SameUpToCaseDowncase` | app/models/user.rb:100 | strings that differ position by position only in letter case have the same downcase |
| `Users.NormalizedName` | app/models/user.rb:100 | `name&.downcase&.titleize`: nil exactly when the name is nil, otherwise titleize of the downcased name |
| `Users.NameLength` | app/models/user.rb:61 | the length the validator measures is that of `name.to_s`, 0 for nil |
| `Users.NameTakenIn` | app/models/user.rb:62 | the uniqueness query finds a name only if some stored row holds it (nil matching NULL), and never in an empty table |
| `Users.User.ColumnAttributes` | app/models/user.rb:82 | the inherited hash has string keys only, among them `name` and `email` holding the record's values |
| `Store.TableValid` | app/models/user.rb:59-62 | the empty table is valid, and in a valid table no two rows share a name |
| `Store.ApplyUpdate` | app/models/user.rb:42-44 | the write of `save`'s update path, after these callbacks, keeps the table's length and order, rewrites the columns of the row with the record's id and leaves every other row as it was |
| `Store.UserStore.Save` | app/models/user.rb:42-44 | a new record takes the create path (on success one row with the next id and `now` is appended and the record gets that id) and a persisted one the update path (on success its row takes the record's columns, the name is not normalized again); success exactly when there are no errors; on failure the table, the id sequence and the record's id are unchanged; the invariant is kept |
| `Store.UserStore.Create` | app/models/user.rb:59-62 | name normalized, email normalized, role assigned, then validated against all rows; on success exactly one row with the new id and the normalized fields is appended, otherwise table, id sequence and id are unchanged; the invariant is kept |
| `Store.UserStore.Update` | app/models/user.rb:42-44 | the name is not normalized again, email and role are; validated against the rows with other ids; on success the record's row takes its columns, otherwise the table is unchanged; the invariant is kept |
| `Store.WhereRoleId` | app/models/user.rb:63 | the filter keeps exactly the rows with the given role id, NULL matching NULL |
| `Store.WhereCreatedAfter` | app/models/user.rb:64 | the filter keeps exactly the rows created strictly after the given time |
| `Store.FiltersCommute` | app/models/user.rb:65 | filtering by role then by time gives the same rows in the same order as the other way round |
| `Store.NoDefaultRoleNoDefaultUsers` | app/models/user.rb:63 | when no role is coded `default` the scope matches NULL role ids, and no stored row has one |
| `Store.UserStore.DefaultUsers` | app/models/user.rb:63 | exactly the stored users whose role id is that of the role coded `default` |
| `Store.UserStore.FreshUsers` | app/models/user.rb:64 | exactly the stored users created strictly after the given time |
| `Store.UserStore.DefaultFreshUsers` | app/models/user.rb:65 | exactly the users in both `default` and `fresh(t)`, in table order, whichever scope is applied first |
| `Store.SameNameDifferentCase` | app/models/user.rb:62 | creating a second user whose name differs from a just-stored one only in letter case fails |
| `Store.RoleAssignment` | app/models/user.rb:44 | a new user without a role gets the role coded `default` and is not an admin; one with a role keeps it |

## Left out

- Text.Downcase: lowers ASCII letters only, where Ruby's `String#downcase` is Unicode-aware.
- Text.IsBlank: counts only ASCII whitespace as blank, where `blank?` matches all of `[[:space:]]`, Unicode spaces included.
- ActiveSupport's `titleize` is not part of this model: it is a function value given to the store (`UserStore.titleize`), and nothing is assumed about its output.
- `Roles.FindByCode`: `find_by` has no ordering, so with several roles of one code which one comes back is unspecified; the model returns the first in table order.
- Uniqueness compares names exactly, as a case-sensitive database collation does; a case-insensitive collation is not modelled.
- `active` is a nullable column defaulting to true; the model keeps it as a plain boolean, so `active?` on NULL is not modelled.
- Devise (`devise` at lines 38-39 and the `super` of `active_for_authentication?`): password hashing, sessions, the email/password validations of `:validatable`, and Devise's own `before_validation` email callbacks (`downcase_keys`, `strip_whitespace`); the email contracts of `Save`, `Create` and `Update` describe only this file's `normalize_email`. The framework's own authentication check is a boolean parameter.
- The unique indexes on `email` and `reset_password_token`: database constraints outside the model's validations.
- `has_one_attached :avatar` and its `50x50` variant: blob storage and image processing.
- The `before_destroy`/`after_destroy` logging hooks and `destroy` itself: logging I/O and cascading deletes.
- `has_many`, `through` and polymorphic associations, `dependent: :destroy`: ActiveRecord query and cascade machinery.
- The `Rolable` mixin and `act_as_rolable`: their code is not part of this model.
- `updated_at`, the sign-in counters, timestamps, IPs and reset-token columns: not read or written by this code.
- The clock: `created_at` is the `now` parameter of `Save`/`Create`.
- `app/javascript/packs/application.js` (row removal and the Activate/Disactivate label toggle) and `config/routes.rb`: browser UI and routing, not part of this model.
