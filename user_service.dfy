/** service/impl/UserServiceImpl.java: the account rules over the users
    table. Emails are unique, and so are non-null phones: saveUser and
    updateUser refuse a duplicate. Reset and verification tokens are
    single-use: using one clears it. Deleting a user only deactivates it,
    and an inactive user cannot log in. The password encoder and the token
    generator are parameters; the clock is `now`, in minutes. */
module Users {
  import opened Common
  import opened Accounts

  /** A reset token stays valid for 24 hours. */
  const ResetTokenLifetime := 24 * 60

  /** The user lookups of UserRepository other than by id. */
  datatype Key = ByEmail(email: Option<string>) | ByResetToken(resetToken: string) | ByVerificationToken(token: string)

  predicate Matches(u: User, key: Key) {
    match key
    case ByEmail(e) => u.email == e
    case ByResetToken(t) => u.resetToken == Some(t)
    case ByVerificationToken(t) => u.emailVerificationToken == Some(t)
  }

  /** findByEmail, findByResetToken, findByEmailVerificationToken: the
      position of a row matching the key, if any. */
  function Find(users: seq<User>, key: Key): (r: Option<nat>)
    ensures r.Some? ==> r.value < |users| && Matches(users[r.value], key)
    ensures r.None? ==> forall i :: 0 <= i < |users| ==> !Matches(users[i], key)
  {
    if users == [] then None
    else if Matches(users[|users| - 1], key) then Some(|users| - 1)
    else Find(users[..|users| - 1], key)
  }

  /** Whether some row holds the reset token (none holds null). */
  predicate ResetTokenTaken(users: seq<User>, token: Option<string>) {
    token.Some? && exists i :: 0 <= i < |users| && users[i].resetToken == token
  }

  /** Whether some row holds the verification token. */
  predicate VerificationTokenTaken(users: seq<User>, token: string) {
    exists i :: 0 <= i < |users| && users[i].emailVerificationToken == Some(token)
  }

  /** The table's invariant: every row has an id below nextId and ids are
      distinct; no two rows share an email, a non-null phone, a reset token
      or a verification token. */
  predicate Consistent(users: seq<User>, nextId: nat) {
    (forall i :: 0 <= i < |users| ==> users[i].id.Some? && users[i].id.value < nextId) &&
    (forall i, j :: 0 <= i < j < |users| ==> users[i].id != users[j].id) &&
    (forall i, j :: 0 <= i < j < |users| ==> users[i].email != users[j].email) &&
    (forall i, j :: 0 <= i < j < |users| && users[i].phone.Some? ==> users[i].phone != users[j].phone) &&
    (forall i, j :: 0 <= i < j < |users| && users[i].resetToken.Some? ==> users[i].resetToken != users[j].resetToken) &&
    (forall i, j :: 0 <= i < j < |users| && users[i].emailVerificationToken.Some? ==>
                      users[i].emailVerificationToken != users[j].emailVerificationToken)
  }

  /** The row saveUser stores for `user`: the password encoded, a null role
      defaulted to ROLE_CUSTOMER, never logged in, a new verification token,
      not verified, active; every other column as given. */
  function Saved(user: User, id: nat, encode: Option<string> -> string, token: string): (u: User)
    ensures u.id == Some(id) && u.password == Some(encode(user.password))
    ensures u.role == (if user.role.None? then Some(RoleCustomer) else user.role)
    ensures u.lastLoginAt.None? && u.emailVerificationToken == Some(token) && !u.emailVerified && u.active
    ensures u.name == user.name && u.email == user.email && u.phone == user.phone
    ensures u.profileImageUrl == user.profileImageUrl && u.enabled == user.enabled
    ensures u.resetToken == user.resetToken && u.resetTokenExpiry == user.resetTokenExpiry
  {
    user.(id := Some(id), password := Some(encode(user.password)),
          role := if user.role.None? then Some(RoleCustomer) else user.role,
          lastLoginAt := None, emailVerificationToken := Some(token), emailVerified := false, active := true)
  }

  /** saveUser: EmailInUse for a taken email, PhoneInUse for a taken
      non-null phone, otherwise the table with the saved row
      appended under the next id. */
  function SaveOutcome(users: seq<User>, nextId: nat, user: User, encode: Option<string> -> string, token: string)
    : (r: Result<seq<User>>)
    ensures EmailTaken(users, user.email) ==> r == Err(EmailInUse)
    ensures !EmailTaken(users, user.email) && user.phone.Some? && PhoneTaken(users, user.phone) ==> r == Err(PhoneInUse)
    ensures r.Err? ==> r.error == EmailInUse || r.error == PhoneInUse
    ensures r.Ok? <==> !EmailTaken(users, user.email) && !(user.phone.Some? && PhoneTaken(users, user.phone))
    ensures r.Ok? ==> |r.value| == |users| + 1 && r.value[..|users|] == users &&
                      r.value[|users|] == Saved(user, nextId, encode, token)
  {
    if EmailTaken(users, user.email) then Err(EmailInUse)
    else if user.phone.Some? && PhoneTaken(users, user.phone) then Err(PhoneInUse)
    else Ok(users + [Saved(user, nextId, encode, token)])
  }

  /** updateUser: the row with user's id gets user's name, email, phone and
      profile image; nothing else of it changes, the role in particular.
      A changed email that is taken, or a changed non-null phone that is
      taken, is refused. A null id is refused by the repository; a stored
      row without an email fails on `getEmail().equals`. */
  function UpdateOutcome(users: seq<User>, user: User): (r: Result<seq<User>>)
    ensures user.id.None? ==> r == Err(InvalidArgument)
    ensures user.id.Some? && IndexOfId(users, user.id.value).None? ==> r == Err(NotFound)
    ensures r.Ok? ==> user.id.Some? && IndexOfId(users, user.id.value).Some? &&
                      var i := IndexOfId(users, user.id.value).value;
                      |r.value| == |users| &&
                      (forall k :: 0 <= k < |users| && k != i ==> r.value[k] == users[k]) &&
                      r.value[i] == users[i].(name := user.name, email := user.email, phone := user.phone,
                                              profileImageUrl := user.profileImageUrl) &&
                      r.value[i].role == users[i].role
    ensures r.Ok? ==> var e := users[IndexOfId(users, user.id.value).value].email;
                      (e != user.email ==> !EmailTaken(users, user.email)) &&
                      (user.phone.Some? && user.phone != users[IndexOfId(users, user.id.value).value].phone ==>
                         !PhoneTaken(users, user.phone))
    ensures user.id.Some? && IndexOfId(users, user.id.value).Some? ==>
              var e := users[IndexOfId(users, user.id.value).value];
              (e.email.None? ==> r == Err(NullPointer)) &&
              ((e.email.Some? && (e.email == user.email || !EmailTaken(users, user.email)) &&
                (user.phone.None? || user.phone == e.phone || !PhoneTaken(users, user.phone))) ==> r.Ok?)
    ensures r == Err(EmailInUse) ==>
              user.id.Some? && IndexOfId(users, user.id.value).Some? &&
              users[IndexOfId(users, user.id.value).value].email != user.email && EmailTaken(users, user.email)
    ensures r == Err(PhoneInUse) ==>
              user.id.Some? && IndexOfId(users, user.id.value).Some? && user.phone.Some? &&
              users[IndexOfId(users, user.id.value).value].phone != user.phone && PhoneTaken(users, user.phone)
  {
    if user.id.None? then Err(InvalidArgument)
    else
      var found := IndexOfId(users, user.id.value);
      if found.None? then Err(NotFound)
      else
        var existing := users[found.value];
        if existing.email.None? then Err(NullPointer)
        else if existing.email != user.email && EmailTaken(users, user.email) then Err(EmailInUse)
        else if user.phone.Some? && user.phone != existing.phone && PhoneTaken(users, user.phone) then Err(PhoneInUse)
        else
          Ok(users[found.value := existing.(name := user.name, email := user.email, phone := user.phone,
                                            profileImageUrl := user.profileImageUrl)])
  }

  /** deleteUser: a soft delete, the row stays with active false. */
  function DeleteOutcome(users: seq<User>, id: nat): (r: Result<seq<User>>)
    ensures r.Err? <==> IndexOfId(users, id).None?
    ensures r.Err? ==> r.error == NotFound
    ensures r.Ok? ==> var i := IndexOfId(users, id).value;
                      |r.value| == |users| && r.value[i].id == Some(id) &&
                      (forall k :: 0 <= k < |users| && k != i ==> r.value[k] == users[k]) &&
                      r.value[i] == users[i].(active := false)
  {
    var found := IndexOfId(users, id);
    if found.None? then Err(NotFound)
    else
      var i := found.value;
      Ok(users[i := users[i].(active := false)])
  }

  /** requestPasswordReset: the row with the email gets the new token,
      valid until 24 hours after now. */
  function ResetRequestOutcome(users: seq<User>, email: string, now: int, token: string): (r: Result<seq<User>>)
    ensures r.Err? <==> Find(users, ByEmail(Some(email))).None?
    ensures r.Err? ==> r.error == NotFound
    ensures r.Ok? ==> var i := Find(users, ByEmail(Some(email))).value;
                      |r.value| == |users| &&
                      (forall k :: 0 <= k < |users| && k != i ==> r.value[k] == users[k]) &&
                      r.value[i] == users[i].(resetToken := Some(token), resetTokenExpiry := Some(now + ResetTokenLifetime))
  {
    var found := Find(users, ByEmail(Some(email)));
    if found.None? then Err(NotFound)
    else
      var i := found.value;
      Ok(users[i := users[i].(resetToken := Some(token), resetTokenExpiry := Some(now + ResetTokenLifetime))])
  }

  /** Whether a row's reset token is still valid at `now`: its expiry is set
      and strictly after now. */
  predicate Unexpired(u: User, now: int) {
    u.resetTokenExpiry.Some? && u.resetTokenExpiry.value > now
  }

  /** resetPassword: the row holding the token, if still valid, gets the
      encoded new password and loses token and expiry; anything else is an
      invalid or expired token. */
  function ResetOutcome(users: seq<User>, token: string, newPassword: string, now: int, encode: Option<string> -> string)
    : (r: Result<seq<User>>)
    ensures r.Ok? <==> Find(users, ByResetToken(token)).Some? && Unexpired(users[Find(users, ByResetToken(token)).value], now)
    ensures r.Err? ==> r.error == InvalidArgument
    ensures r.Ok? ==> var i := Find(users, ByResetToken(token)).value;
                      |r.value| == |users| &&
                      (forall k :: 0 <= k < |users| && k != i ==> r.value[k] == users[k]) &&
                      r.value[i] == users[i].(password := Some(encode(Some(newPassword))),
                                              resetToken := None, resetTokenExpiry := None)
  {
    var found := Find(users, ByResetToken(token));
    if found.None? || !Unexpired(users[found.value], now) then Err(InvalidArgument)
    else
      var i := found.value;
      Ok(users[i := users[i].(password := Some(encode(Some(newPassword))), resetToken := None, resetTokenExpiry := None)])
  }

  /** verifyEmail: the row holding the token is verified and loses the
      token; an unknown token is invalid. */
  function VerifyOutcome(users: seq<User>, token: string): (r: Result<seq<User>>)
    ensures r.Ok? <==> Find(users, ByVerificationToken(token)).Some?
    ensures r.Err? ==> r.error == InvalidArgument
    ensures r.Ok? ==> var i := Find(users, ByVerificationToken(token)).value;
                      |r.value| == |users| &&
                      (forall k :: 0 <= k < |users| && k != i ==> r.value[k] == users[k]) &&
                      r.value[i] == users[i].(emailVerified := true, emailVerificationToken := None)
  {
    var found := Find(users, ByVerificationToken(token));
    if found.None? then Err(InvalidArgument)
    else
      var i := found.value;
      Ok(users[i := users[i].(emailVerified := true, emailVerificationToken := None)])
  }

  /** What loadUserByUsername hands to Spring Security. */
  datatype UserDetails = UserDetails(username: Option<string>, password: Option<string>, enabled: bool)

  /** loadUserByUsername: the row with the email, unless there is none or
      it is inactive. */
  function LoadOutcome(users: seq<User>, username: string): (r: Result<UserDetails>)
    ensures r.Err? ==> r.error == NotFound
    ensures r.Ok? <==> exists i :: 0 <= i < |users| && users[i].email == Some(username) && users[i].active &&
                                   Find(users, ByEmail(Some(username))) == Some(i)
    ensures r.Ok? ==> r.value.username == Some(username)
    ensures r.Ok? ==> Find(users, ByEmail(Some(username))).Some? &&
                      var u := users[Find(users, ByEmail(Some(username))).value];
                      r.value == UserDetails(u.email, u.password, u.enabled)
  {
    var found := Find(users, ByEmail(Some(username)));
    if found.None? then Err(NotFound)
    else
      var u := users[found.value];
      if !u.active then Err(NotFound) else Ok(UserDetails(u.email, u.password, u.enabled))
  }

  // ---------------------------------------------------------------------
  // Properties

  /** In a consistent table only one row matches an email or a token. */
  lemma FindIsUnique(users: seq<User>, nextId: nat, key: Key, i: nat)
    requires Consistent(users, nextId) && i < |users| && Matches(users[i], key)
    ensures Find(users, key) == Some(i)
  {
  }

  /** In a consistent table only one row carries an id. */
  lemma IndexOfIdIsUnique(users: seq<User>, nextId: nat, i: nat)
    requires Consistent(users, nextId) && i < |users|
    ensures IndexOfId(users, users[i].id.value) == Some(i)
  {
  }

  /** A reset token is single-use: once a reset has succeeded, the same
      token is refused. */
  lemma {:induction false} ResetTokenSingleUse(users: seq<User>, nextId: nat, token: string, p: string, q: string,
                                               now: int, later: int, encode: Option<string> -> string)
    requires Consistent(users, nextId)
    requires ResetOutcome(users, token, p, now, encode).Ok?
    ensures ResetOutcome(ResetOutcome(users, token, p, now, encode).value, token, q, later, encode) == Err(InvalidArgument)
  {
    var i := Find(users, ByResetToken(token)).value;
    var after := ResetOutcome(users, token, p, now, encode).value;
    forall k | 0 <= k < |after| ensures !Matches(after[k], ByResetToken(token)) {
      if k != i {
        if i < k {
          assert users[i].resetToken != users[k].resetToken;
        } else {
          assert users[k].resetToken.Some? ==> users[k].resetToken != users[i].resetToken;
        }
      }
    }
  }

  /** A verification token works once: verifying again with it fails. */
  lemma {:induction false} VerifyTokenSingleUse(users: seq<User>, nextId: nat, token: string)
    requires Consistent(users, nextId)
    requires VerifyOutcome(users, token).Ok?
    ensures VerifyOutcome(VerifyOutcome(users, token).value, token) == Err(InvalidArgument)
  {
    var i := Find(users, ByVerificationToken(token)).value;
    var after := VerifyOutcome(users, token).value;
    forall k | 0 <= k < |after| ensures !Matches(after[k], ByVerificationToken(token)) {
      if k != i {
        if i < k {
          assert users[i].emailVerificationToken != users[k].emailVerificationToken;
        } else {
          assert users[k].emailVerificationToken.Some? ==> users[k].emailVerificationToken != users[i].emailVerificationToken;
        }
      }
    }
  }

  /** A token just issued by requestPasswordReset resets the password
      exactly while the current time is before its expiry, 24 hours on. */
  lemma {:induction false} FreshResetTokenWorksFor24Hours(users: seq<User>, nextId: nat, email: string, now: int,
                                                          token: string, p: string, later: int,
                                                          encode: Option<string> -> string)
    requires Consistent(users, nextId) && !ResetTokenTaken(users, Some(token))
    requires ResetRequestOutcome(users, email, now, token).Ok?
    ensures ResetOutcome(ResetRequestOutcome(users, email, now, token).value, token, p, later, encode).Ok?
            <==> later < now + ResetTokenLifetime
  {
    var i := Find(users, ByEmail(Some(email))).value;
    var after := ResetRequestOutcome(users, email, now, token).value;
    forall k | 0 <= k < |after| && k != i ensures !Matches(after[k], ByResetToken(token)) {
      assert after[k] == users[k];
    }
    assert Matches(after[i], ByResetToken(token));
    assert Find(after, ByResetToken(token)) == Some(i) by {
      var f := Find(after, ByResetToken(token)).value;
      assert Matches(after[f], ByResetToken(token));
    }
  }

  /** A new reset request revokes the previous token of that account. */
  lemma {:induction false} NewResetRequestRevokesOld(users: seq<User>, nextId: nat, email: string, now: int,
                                                     oldToken: string, newToken: string, p: string, later: int,
                                                     encode: Option<string> -> string)
    requires Consistent(users, nextId) && oldToken != newToken
    requires ResetRequestOutcome(users, email, now, newToken).Ok?
    requires users[Find(users, ByEmail(Some(email))).value].resetToken == Some(oldToken)
    ensures ResetOutcome(ResetRequestOutcome(users, email, now, newToken).value, oldToken, p, later, encode)
            == Err(InvalidArgument)
  {
    var i := Find(users, ByEmail(Some(email))).value;
    var after := ResetRequestOutcome(users, email, now, newToken).value;
    forall k | 0 <= k < |after| ensures !Matches(after[k], ByResetToken(oldToken)) {
      if k != i {
        assert after[k] == users[k];
        if i < k {
          assert users[i].resetToken != users[k].resetToken;
        } else {
          assert users[k].resetToken.Some? ==> users[k].resetToken != users[i].resetToken;
        }
      }
    }
  }

  /** A deleted user can no longer log in; the row itself is kept. */
  lemma {:induction false} DeletedUserCannotLogIn(users: seq<User>, nextId: nat, i: nat)
    requires Consistent(users, nextId) && i < |users| && users[i].email.Some?
    ensures DeleteOutcome(users, users[i].id.value).Ok?
    ensures |DeleteOutcome(users, users[i].id.value).value| == |users|
    ensures LoadOutcome(DeleteOutcome(users, users[i].id.value).value, users[i].email.value) == Err(NotFound)
  {
    IndexOfIdIsUnique(users, nextId, i);
    var after := DeleteOutcome(users, users[i].id.value).value;
    var e := users[i].email;
    assert after[i] == users[i].(active := false);
    forall k | 0 <= k < |after| && k != i ensures !Matches(after[k], ByEmail(e)) {
      assert after[k] == users[k];
      if i < k {
        assert users[i].email != users[k].email;
      } else {
        assert users[k].email != users[i].email;
      }
    }
    assert Find(after, ByEmail(e)) == Some(i) by {
      var f := Find(after, ByEmail(e)).value;
      assert Matches(after[f], ByEmail(e));
    }
  }

  // ---------------------------------------------------------------------
  // The invariant is kept

  lemma ConsistentAfterSave(users: seq<User>, nextId: nat, user: User, encode: Option<string> -> string, token: string)
    requires Consistent(users, nextId)
    requires !VerificationTokenTaken(users, token) && !ResetTokenTaken(users, user.resetToken)
    requires SaveOutcome(users, nextId, user, encode, token).Ok?
    ensures Consistent(SaveOutcome(users, nextId, user, encode, token).value, nextId + 1)
  {
    var after := SaveOutcome(users, nextId, user, encode, token).value;
    var n := |users|;
    assert forall k :: 0 <= k < n ==> after[k] == users[k];
    assert after[n].email == user.email;
  }

  lemma ConsistentAfterUpdate(users: seq<User>, nextId: nat, user: User)
    requires Consistent(users, nextId)
    requires UpdateOutcome(users, user).Ok?
    ensures Consistent(UpdateOutcome(users, user).value, nextId)
  {
    var i := IndexOfId(users, user.id.value).value;
    var after := UpdateOutcome(users, user).value;
    var existing := users[i];
    // a changed email or phone was free; an unchanged one was the row's own
    forall j, k | 0 <= j < k < |after| ensures after[j].email != after[k].email {
      if j == i && existing.email != user.email {
        assert after[k] == users[k];
      } else if k == i && existing.email != user.email {
        assert after[j] == users[j];
      }
    }
    forall j, k | 0 <= j < k < |after| && after[j].phone.Some? ensures after[j].phone != after[k].phone {
      if j == i && user.phone != existing.phone {
        assert after[k] == users[k];
      } else if k == i && user.phone != existing.phone {
        assert after[j] == users[j];
      }
    }
  }

  lemma ConsistentAfterRowEdit(users: seq<User>, nextId: nat, i: nat, u: User)
    requires Consistent(users, nextId) && i < |users|
    requires u.id == users[i].id && u.email == users[i].email && u.phone == users[i].phone
    requires u.resetToken.None? || u.resetToken == users[i].resetToken || !ResetTokenTaken(users, u.resetToken)
    requires u.emailVerificationToken.None? || u.emailVerificationToken == users[i].emailVerificationToken
    ensures Consistent(users[i := u], nextId)
  {
  }

  class UserService {
    /** The users table, in insertion order. */
    var users: seq<User>
    /** The identity the next saved user receives. */
    var nextId: nat

    ghost predicate Valid()
      reads this
    {
      Consistent(users, nextId)
    }

    constructor ()
      ensures Valid() && users == [] && nextId == 1
    {
      users := [];
      nextId := 1;
    }

    /** saveUser. The verification token it generates is new, and so is a
        reset token the caller's user already carries (random UUIDs do not
        repeat). */
    method SaveUser(user: User, encode: Option<string> -> string, token: string) returns (r: Result<User>)
      requires Valid()
      requires !VerificationTokenTaken(users, token) && !ResetTokenTaken(users, user.resetToken)
      modifies this
      ensures Valid()
      ensures SaveOutcome(old(users), old(nextId), user, encode, token).Ok? ==>
                users == SaveOutcome(old(users), old(nextId), user, encode, token).value &&
                r == Ok(Saved(user, old(nextId), encode, token)) && nextId == old(nextId) + 1
      ensures SaveOutcome(old(users), old(nextId), user, encode, token).Err? ==>
                r == Err(SaveOutcome(old(users), old(nextId), user, encode, token).error) &&
                users == old(users) && nextId == old(nextId)
    {
      if EmailTaken(users, user.email) {
        return Err(EmailInUse);
      }
      if user.phone.Some? && PhoneTaken(users, user.phone) {
        return Err(PhoneInUse);
      }
      ConsistentAfterSave(users, nextId, user, encode, token);
      var saved := user.(id := Some(nextId), password := Some(encode(user.password)));
      if saved.role.None? {
        saved := saved.(role := Some(RoleCustomer));
      }
      saved := saved.(lastLoginAt := None, emailVerificationToken := Some(token), emailVerified := false, active := true);
      users := users + [saved];
      nextId := nextId + 1;
      r := Ok(saved);
    }

    /** loadUserByUsername */
    function LoadUserByUsername(username: string): (r: Result<UserDetails>)
      reads this
      requires Valid()
      ensures r.Ok? <==> exists i :: 0 <= i < |users| && users[i].email == Some(username) && users[i].active
      ensures r.Ok? ==> r.value.username == Some(username)
      ensures forall i :: 0 <= i < |users| && users[i].email == Some(username) ==>
                (r.Ok? <==> users[i].active) &&
                (r.Ok? ==> r.value == UserDetails(Some(username), users[i].password, users[i].enabled))
    {
      var r := LoadOutcome(users, username);
      assert forall i :: 0 <= i < |users| && users[i].email == Some(username) ==>
               (r.Ok? <==> users[i].active) &&
               (r.Ok? ==> r.value == UserDetails(Some(username), users[i].password, users[i].enabled)) by {
        forall i | 0 <= i < |users| && users[i].email == Some(username)
          ensures (r.Ok? <==> users[i].active) &&
                  (r.Ok? ==> r.value == UserDetails(Some(username), users[i].password, users[i].enabled))
        {
          FindIsUnique(users, nextId, ByEmail(Some(username)), i);
        }
      }
      r
    }

    /** deleteUser */
    method DeleteUser(id: nat) returns (r: Outcome)
      requires Valid()
      modifies this`users
      ensures Valid()
      ensures DeleteOutcome(old(users), id).Ok? ==> r == Pass && users == DeleteOutcome(old(users), id).value
      ensures DeleteOutcome(old(users), id).Err? ==> r == Fail(NotFound) && users == old(users)
    {
      var found := IndexOfId(users, id);
      if found.None? {
        return Fail(NotFound);
      }
      var i := found.value;
      ConsistentAfterRowEdit(users, nextId, i, users[i].(active := false));
      users := users[i := users[i].(active := false)];
      r := Pass;
    }

    /** updateUser */
    method UpdateUser(user: User) returns (r: Result<User>)
      requires Valid()
      modifies this`users
      ensures Valid()
      ensures UpdateOutcome(old(users), user).Ok? ==>
                users == UpdateOutcome(old(users), user).value &&
                r == Ok(users[IndexOfId(old(users), user.id.value).value])
      ensures UpdateOutcome(old(users), user).Err? ==>
                r == Err(UpdateOutcome(old(users), user).error) && users == old(users)
    {
      if user.id.None? {
        return Err(InvalidArgument);
      }
      var found := IndexOfId(users, user.id.value);
      if found.None? {
        return Err(NotFound);
      }
      var i := found.value;
      var existing := users[i];
      if existing.email.None? {
        return Err(NullPointer);
      }
      if existing.email != user.email && EmailTaken(users, user.email) {
        return Err(EmailInUse);
      }
      if user.phone.Some? && user.phone != existing.phone && PhoneTaken(users, user.phone) {
        return Err(PhoneInUse);
      }
      ConsistentAfterUpdate(users, nextId, user);
      existing := existing.(name := user.name, email := user.email, phone := user.phone,
                            profileImageUrl := user.profileImageUrl);
      users := users[i := existing];
      r := Ok(existing);
    }

    /** requestPasswordReset. The reset token it generates is new. */
    method RequestPasswordReset(email: string, now: int, token: string) returns (r: Outcome)
      requires Valid() && !ResetTokenTaken(users, Some(token))
      modifies this`users
      ensures Valid()
      ensures ResetRequestOutcome(old(users), email, now, token).Ok? ==>
                r == Pass && users == ResetRequestOutcome(old(users), email, now, token).value
      ensures ResetRequestOutcome(old(users), email, now, token).Err? ==>
                r == Fail(NotFound) && users == old(users)
    {
      var found := Find(users, ByEmail(Some(email)));
      if found.None? {
        return Fail(NotFound);
      }
      var i := found.value;
      var u := users[i].(resetToken := Some(token), resetTokenExpiry := Some(now + ResetTokenLifetime));
      ConsistentAfterRowEdit(users, nextId, i, u);
      users := users[i := u];
      r := Pass;
    }

    /** resetPassword */
    method ResetPassword(token: string, newPassword: string, now: int, encode: Option<string> -> string)
      returns (r: Outcome)
      requires Valid()
      modifies this`users
      ensures Valid()
      ensures ResetOutcome(old(users), token, newPassword, now, encode).Ok? ==>
                r == Pass && users == ResetOutcome(old(users), token, newPassword, now, encode).value
      ensures ResetOutcome(old(users), token, newPassword, now, encode).Err? ==>
                r == Fail(InvalidArgument) && users == old(users)
    {
      var found := Find(users, ByResetToken(token));
      if found.None? || !Unexpired(users[found.value], now) {
        return Fail(InvalidArgument);
      }
      var i := found.value;
      var u := users[i].(password := Some(encode(Some(newPassword))), resetToken := None, resetTokenExpiry := None);
      ConsistentAfterRowEdit(users, nextId, i, u);
      users := users[i := u];
      r := Pass;
    }

    /** verifyEmail */
    method VerifyEmail(token: string) returns (r: Outcome)
      requires Valid()
      modifies this`users
      ensures Valid()
      ensures VerifyOutcome(old(users), token).Ok? ==> r == Pass && users == VerifyOutcome(old(users), token).value
      ensures VerifyOutcome(old(users), token).Err? ==> r == Fail(InvalidArgument) && users == old(users)
    {
      var found := Find(users, ByVerificationToken(token));
      if found.None? {
        return Fail(InvalidArgument);
      }
      var i := found.value;
      var u := users[i].(emailVerified := true, emailVerificationToken := None);
      ConsistentAfterRowEdit(users, nextId, i, u);
      users := users[i := u];
      r := Pass;
    }
  }
}
