/** model/User.java: the account row shared by customers and professionals
    (Customer adds no column the model reads). Timestamps are minutes, as
    elsewhere; passwords are stored as whatever the encoder returned. */
module Accounts {
  import opened Common

  /** The roles the services assign. */
  datatype UserRole = RoleCustomer | RoleProfessional

  datatype User = User(
    id: Option<nat>,
    name: Option<string>,
    email: Option<string>,
    password: Option<string>,
    phone: Option<string>,
    profileImageUrl: Option<string>,
    role: Option<UserRole>,
    enabled: bool,
    lastLoginAt: Option<int>,
    emailVerificationToken: Option<string>,
    emailVerified: bool,
    active: bool,
    resetToken: Option<string>,
    resetTokenExpiry: Option<int>)

  /** `new User()` (and `new Customer()`): every reference null; enabled and
      emailVerified start false, active starts true. */
  function NewUser(): (u: User)
    ensures u.id.None? && u.name.None? && u.email.None? && u.password.None? && u.phone.None?
    ensures u.role.None? && !u.enabled && !u.emailVerified && u.active
    ensures u.emailVerificationToken.None? && u.resetToken.None? && u.resetTokenExpiry.None?
  {
    User(None, None, None, None, None, None, None, false, None, None, false, true, None, None)
  }

  /** The position of the row carrying id, if any. */
  function IndexOfId(users: seq<User>, id: nat): (r: Option<nat>)
    ensures r.Some? ==> r.value < |users| && users[r.value].id == Some(id)
    ensures r.None? ==> forall i :: 0 <= i < |users| ==> users[i].id != Some(id)
  {
    if users == [] then None
    else if users[|users| - 1].id == Some(id) then Some(|users| - 1)
    else IndexOfId(users[..|users| - 1], id)
  }

  /** existsByEmail */
  predicate EmailTaken(users: seq<User>, email: Option<string>) {
    exists i :: 0 <= i < |users| && users[i].email == email
  }

  /** existsByPhone */
  predicate PhoneTaken(users: seq<User>, phone: Option<string>) {
    exists i :: 0 <= i < |users| && users[i].phone == phone
  }
}
