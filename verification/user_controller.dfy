/** The account handlers over the user collection: admin self-registration
    under a cap, user registration by an admin, login, password change and
    the reset-token flow. bcrypt, the mailer, uuid and the clock are inputs. */
module UserController {
  import opened Common
  import opened UserModel
  import opened Validations
  import Password

  /** `process.env.MAX_ADMINS || 3`, fixed at its default. */
  const MAX_ADMINS: nat := 3
  /** A reset token lives one hour, in milliseconds. */
  const RESET_WINDOW: int := 3600000

  const MSG_EMAIL_TAKEN: string := "Email already registered. Login Instead"
  const MSG_ADMIN_CAP: string := "Admin account can't exceed 3"
  const MSG_ADMIN_FAILED: string := "Admin resgistration unsuccessful"
  const MSG_USER_EXISTS: string := "User with this email or ipssNumber already exist"
  const MSG_LOGIN_MAIL_FAILED: string := "Failed to send user login details"
  const MSG_NO_USER_LOGIN: string := "No user found by this Email. Sign up!"
  const MSG_BAD_LOGIN: string := "Incorrect password or email provided"
  const MSG_OLD_PASSWORD: string := "Old password does not match! Input correct Password"
  const MSG_PASSWORD_CHANGED: string := "Password changed successfully"
  const MSG_NO_USER_EMAIL: string := "No user found by this email"
  const MSG_RESET_MAIL_FAILED: string := "Failed to send password reset email"
  const MSG_BAD_TOKEN: string := "Invalid or expired token"

  /** How many documents have role "admin". */
  function AdminCount(users: seq<User>): (n: nat)
    ensures n <= |users|
  {
    if users == [] then 0
    else AdminCount(users[..|users| - 1]) + (if users[|users| - 1].role == ROLE_ADMIN then 1 else 0)
  }

  lemma AdminCountAppend(users: seq<User>, u: User)
    ensures AdminCount(users + [u]) == AdminCount(users) + (if u.role == ROLE_ADMIN then 1 else 0)
  {
    assert (users + [u])[..|users|] == users;
  }

  /** Replacing a document by one with the same role keeps the count. */
  lemma {:induction false} AdminCountUpdate(users: seq<User>, k: nat, u: User)
    requires k < |users| && u.role == users[k].role
    ensures AdminCount(users[k := u]) == AdminCount(users)
    decreases |users|
  {
    var n := |users| - 1;
    assert users[k := u][..n] == (if k < n then users[..n][k := u] else users[..n]);
    if k < n {
      AdminCountUpdate(users[..n], k, u);
    }
  }

  /** `existingAdmin.some(admin => admin.email === email)`. */
  predicate EmailTaken(users: seq<User>, email: Value)
  {
    exists i :: 0 <= i < |users| && StringFieldMatches(users[i].email, email)
  }

  /** The email a new document stores: the request's string, or none. */
  function EmailOf(v: Value): Option<string>
  {
    if v.Str? then Some(v.s) else None
  }

  /** A document saved with a validated email is found again by that email. */
  lemma EmailOfMatches(v: Value)
    requires v.Str? || v.Undefined?
    ensures StringFieldMatches(EmailOf(v), v)
  {}

  /** The document `registerUser` saves for an accepted body passes the
      user schema exactly when the body carries an email: the schema
      requires one, the request schema leaves it optional. */
  lemma RegisteredUserSchemaValid(body: Body, id: UserId, password: string, now: int)
    requires UserDataErrors(body, ROLE_USER) == [] && password != ""
    ensures UserSchemaValid(NewUser(id, Field(body, "fullName").s, Some(ROLE_USER),
                                    Some(Field(body, "ipssNumber").n.Floor), EmailOf(Field(body, "email")),
                                    password, now))
            <==> Field(body, "email").Str?
  {
    assert "fullName" !in UserDataErrors(body, ROLE_USER);
    assert "email" !in UserDataErrors(body, ROLE_USER);
    assert "ipssNumber" !in UserDataErrors(body, ROLE_USER);
  }

  /** Likewise the admin document `registerAdmin` saves for an accepted
      body passes the user schema exactly when the body carries an email. */
  lemma RegisteredAdminSchemaValid(body: Body, id: UserId, password: string, now: int)
    requires UserDataErrors(body, ROLE_ADMIN) == [] && password != ""
    ensures UserSchemaValid(NewUser(id, Field(body, "fullName").s, Some(ROLE_ADMIN), None,
                                    EmailOf(Field(body, "email")), password, now))
            <==> Field(body, "email").Str?
  {
    assert "fullName" !in UserDataErrors(body, ROLE_ADMIN);
    assert "email" !in UserDataErrors(body, ROLE_ADMIN);
  }

  /** The `$or` filter of `registerUser`: the email, and the ipssNumber when truthy. */
  function RegistrationQuery(body: Body): Query
  {
    var ipss := Field(body, "ipssNumber");
    ByEmailOrIpss(Field(body, "email"), if ipss.Num? && ipss.n != 0.0 then Some(ipss.n.Floor) else None)
  }

  /** A reset token and its expiry are set and cleared together. */
  predicate TokensPaired(users: seq<User>)
  {
    forall i :: 0 <= i < |users| ==> (users[i].resetToken.None? <==> users[i].resetTokenExpires.None?)
  }

  /** Without a string token no reset query matches a paired document. */
  lemma NonStringTokenMatchesNobody(users: seq<User>, token: Value, now: int)
    requires TokensPaired(users) && !token.Str?
    ensures FindFirst(users, ByResetToken(token, now)).None?
  {
  }

  /** A document no registration query matches has neither the request's
      email nor its ipssNumber. */
  lemma UnmatchedKeysDiffer(users: seq<User>, email: Value, ipss: int, u: User)
    requires FindFirst(users, ByEmailOrIpss(email, Some(ipss))).None?
    requires email.Str? || email.Undefined?
    requires u.email == EmailOf(email) && u.ipssNumber == Some(ipss)
    ensures forall i :: 0 <= i < |users| ==> users[i].email != u.email
    ensures forall i :: 0 <= i < |users| ==> users[i].ipssNumber.Some? ==> users[i].ipssNumber != u.ipssNumber
  {
    forall i | 0 <= i < |users|
      ensures users[i].email != u.email && users[i].ipssNumber != u.ipssNumber
    {
      assert !Matches(users[i], ByEmailOrIpss(email, Some(ipss)));
    }
  }

  /** Appending a document whose keys are new keeps the keys unique. */
  lemma UniqueKeysAppend(users: seq<User>, u: User)
    requires UniqueKeys(users)
    requires forall i :: 0 <= i < |users| ==> users[i].email != u.email
    requires forall i :: 0 <= i < |users| ==> users[i].ipssNumber.Some? ==> users[i].ipssNumber != u.ipssNumber
    ensures UniqueKeys(users + [u])
  {}

  /** Changing fields other than the keys keeps the keys unique. */
  lemma UniqueKeysUpdate(users: seq<User>, k: nat, u: User)
    requires UniqueKeys(users) && k < |users|
    requires u.email == users[k].email && u.ipssNumber == users[k].ipssNumber
    ensures UniqueKeys(users[k := u])
  {}

  // The schemas as written refuse the keys three handlers read.

  /** As written, `registerAdmin` cannot succeed: a body with a string
      `password` fails the user-data schema, and without one bcrypt throws. */
  lemma AdminRegistrationUnreachableAsWritten(body: Body)
    ensures !(UserDataAcceptedAsWritten(body, ROLE_ADMIN) && Field(body, "password").Str?)
  {
    if UserDataAcceptedAsWritten(body, ROLE_ADMIN) {
      UndeclaredKeyAbsent(body, USER_DATA_KEYS, "password");
    }
  }

  /** A registration body the declared-field checks accept, with a
      password, that the schema as written refuses. */
  lemma AdminRegistrationBodyExample()
    ensures var body := map["fullName" := Str("Amina Bello"), "ipssNumber" := Num(12345.0),
                            "phoneNumber" := Str("08012345678"), "password" := Str("s3cretPass")];
      && UserDataErrors(body, ROLE_ADMIN) == []
      && Field(body, "password").Str?
      && !UserDataAcceptedAsWritten(body, ROLE_ADMIN)
  {
    var body := map["fullName" := Str("Amina Bello"), "ipssNumber" := Num(12345.0),
                    "phoneNumber" := Str("08012345678"), "password" := Str("s3cretPass")];
    assert "password" in body.Keys;
    assert Field(body, "fullName") == Str("Amina Bello");
    assert Field(body, "email") == Undefined;
    assert Field(body, "ipssNumber") == Num(12345.0);
    assert IsInteger(12345.0) by { assert (12345.0).Floor == 12345; }
    var phone := "08012345678";
    assert Field(body, "phoneNumber") == Str(phone);
    assert PhoneField(Str(phone)) by {
      forall i | 0 <= i < |phone| ensures IsDigit(phone[i]) {}
    }
    UserDataValidIffNoErrors(body, ROLE_ADMIN);
  }

  /** As written, `loginUser` looks the caller up by an undefined email:
      the login schema refuses a body carrying `email`, so only a
      document without an email can be found. */
  lemma LoginLookupAsWritten(users: seq<User>, body: Body)
    requires LoginAcceptedAsWritten(body)
    ensures Field(body, "email") == Undefined
    ensures FindFirst(users, ByEmail(Field(body, "email"))).Some? ==>
              users[FindFirst(users, ByEmail(Field(body, "email"))).value].email.None?
  {
    UndeclaredKeyAbsent(body, LOGIN_KEYS, "email");
  }

  /** As written, `resetPassword` never finds a document: the reset schema
      refuses a body carrying `token`, and an undefined token matches no
      document whose token and expiry are paired. */
  lemma ResetUnreachableAsWritten(users: seq<User>, body: Body, now: int)
    requires TokensPaired(users) && ResetAcceptedAsWritten(body)
    ensures FindFirst(users, ByResetToken(Field(body, "token"), now)).None?
  {
    UndeclaredKeyAbsent(body, RESET_KEYS, "token");
    NonStringTokenMatchesNobody(users, Field(body, "token"), now);
  }

  /** The payload `loginUser` signs into the token. */
  datatype Claims = Claims(id: UserId, role: string, email: Option<string>)

  class UserRegistry {
    /** The user collection; a document's id is its position. */
    var users: seq<User>

    ghost predicate Valid()
      reads this
    {
      && (forall i :: 0 <= i < |users| ==> users[i].id == i)
      && AdminCount(users) <= MAX_ADMINS
      && UniqueKeys(users)
      && TokensPaired(users)
    }

    constructor ()
      ensures users == [] && Valid()
    {
      users := [];
    }

    /** Saving a new document: it takes the next id, its keys are fresh,
        and an admin is saved only below the cap. */
    method Insert(u: User)
      requires Valid()
      requires u.id == |users| && u.resetToken.None? && u.resetTokenExpires.None?
      requires forall i :: 0 <= i < |users| ==> users[i].email != u.email
      requires forall i :: 0 <= i < |users| ==> users[i].ipssNumber.Some? ==> users[i].ipssNumber != u.ipssNumber
      requires u.role == ROLE_ADMIN ==> AdminCount(users) < MAX_ADMINS
      modifies this
      ensures users == old(users) + [u] && Valid()
      ensures AdminCount(users) == AdminCount(old(users)) + (if u.role == ROLE_ADMIN then 1 else 0)
    {
      UniqueKeysAppend(users, u);
      AdminCountAppend(users, u);
      users := users + [u];
    }

    /** `registerAdmin`: validation, then the email check, then the cap;
        `hash` stands for `bcrypt.hash`, which throws on a non-string. */
    method RegisterAdmin(body: Body, hash: string -> string, now: int) returns (reply: Reply<string>)
      requires Valid()
      modifies this
      ensures Valid()
      ensures AdminCount(users) <= MAX_ADMINS
      ensures reply.Success? ==> EmailTaken(users, Field(body, "email"))
      ensures var errs := UserDataErrors(body, ROLE_ADMIN);
              var email := Field(body, "email");
        && (errs != [] ==> reply == Failure(400, errs))
        && (errs == [] && EmailTaken(old(users), email) ==> reply == Fail(403, MSG_EMAIL_TAKEN))
        && (errs == [] && !EmailTaken(old(users), email) && AdminCount(old(users)) >= MAX_ADMINS ==>
              reply == Fail(403, MSG_ADMIN_CAP))
        && (reply.Success? <==>
              && errs == [] && !EmailTaken(old(users), email) && AdminCount(old(users)) < MAX_ADMINS
              && Field(body, "password").Str?)
        && (reply.Success? ==>
              && reply.code == 201
              && users == old(users) + [NewUser(|old(users)|, Field(body, "fullName").s, Some(ROLE_ADMIN), None,
                                                EmailOf(email), hash(Field(body, "password").s), now)]
              && AdminCount(users) == AdminCount(old(users)) + 1)
      ensures reply.Failure? ==> users == old(users)
    {
      var errs := UserDataErrors(body, ROLE_ADMIN);
      if errs != [] {
        return Failure(400, errs);
      }
      var email := Field(body, "email");
      if EmailTaken(users, email) {
        return Fail(403, MSG_EMAIL_TAKEN);
      }
      if AdminCount(users) >= MAX_ADMINS {
        return Fail(403, MSG_ADMIN_CAP);
      }
      var password := Field(body, "password");
      if !password.Str? {
        return Fail(500, MSG_ADMIN_FAILED);
      }
      var admin := NewUser(|users|, Field(body, "fullName").s, Some(ROLE_ADMIN), None, EmailOf(email), hash(password.s), now);
      forall i | 0 <= i < |users|
        ensures users[i].email != admin.email
      {
        assert !StringFieldMatches(users[i].email, email);
      }
      Insert(admin);
      EmailOfMatches(email);
      assert users[|users| - 1] == admin;
      reply := Success(201, "Admin account register successfully");
    }

    /** `registerUser`: validation, the admin check, the duplicate check,
        then a generated password saved only once the mail has gone out.
        The reply carries the temporary password. */
    method RegisterUser(caller: Caller, body: Body, draws: seq<real>, shuffle: seq<nat>,
                        hash: string -> string, mailSent: bool, now: int) returns (reply: Reply<string>)
      requires Valid()
      requires Password.ValidDraws(draws) && Password.IsPermutation(shuffle, Password.PASSWORD_LENGTH)
      modifies this
      ensures Valid()
      ensures var errs := UserDataErrors(body, ROLE_USER);
              var q := RegistrationQuery(body);
        && (errs != [] ==> reply == Failure(400, errs))
        && (errs == [] && caller.role != ROLE_ADMIN ==> reply == Fail(403, "Access denied"))
        && (errs == [] && caller.role == ROLE_ADMIN && FindFirst(old(users), q).Some? ==>
              reply == Fail(403, MSG_USER_EXISTS))
        && (errs == [] && caller.role == ROLE_ADMIN && FindFirst(old(users), q).None? && !mailSent ==>
              reply == Fail(500, MSG_LOGIN_MAIL_FAILED))
        && (reply.Success? <==>
              errs == [] && caller.role == ROLE_ADMIN && FindFirst(old(users), q).None? && mailSent)
        && (reply.Success? ==>
              && reply.code == 201
              && reply.value == Password.Permute(Password.Built(draws), shuffle)
              && |reply.value| == Password.PASSWORD_LENGTH
              && users == old(users) + [NewUser(|old(users)|, Field(body, "fullName").s, Some(ROLE_USER),
                                                Some(Field(body, "ipssNumber").n.Floor), EmailOf(Field(body, "email")),
                                                hash(reply.value), now)])
      ensures reply.Failure? ==> users == old(users)
      ensures reply.Success? ==> FindFirst(users, RegistrationQuery(body)).Some?
    {
      var errs := UserDataErrors(body, ROLE_USER);
      if errs != [] {
        return Failure(400, errs);
      }
      if caller.role != ROLE_ADMIN {
        return Fail(403, "Access denied");
      }
      var q := RegistrationQuery(body);
      if FindFirst(users, q).Some? {
        return Fail(403, MSG_USER_EXISTS);
      }
      var tempPassword := Password.GeneratePassword(draws, shuffle);
      var ipss := Field(body, "ipssNumber");
      var email := Field(body, "email");
      var user := NewUser(|users|, Field(body, "fullName").s, Some(ROLE_USER), Some(ipss.n.Floor),
                          EmailOf(email), hash(tempPassword), now);
      if !mailSent {
        return Fail(500, MSG_LOGIN_MAIL_FAILED);
      }
      UnmatchedKeysDiffer(users, email, ipss.n.Floor, user);
      Insert(user);
      EmailOfMatches(email);
      assert Matches(users[|users| - 1], q);
      reply := Success(201, tempPassword);
    }

    /** `loginUser`: the login schema, then a lookup by email and the
        bcrypt comparison; the reply carries the claims the token is
        signed with. Nothing changes. */
    method LoginUser(body: Body, compare: (string, string) -> bool) returns (reply: Reply<Claims>)
      ensures var errs := LoginErrors(body);
              var found := FindFirst(users, ByEmail(Field(body, "email")));
        && (errs != [] ==> reply == Failure(400, errs))
        && (errs == [] && found.None? ==> reply == Fail(404, MSG_NO_USER_LOGIN))
        && (reply.Success? <==>
              errs == [] && found.Some? && compare(Field(body, "password").s, users[found.value].password))
        && (errs == [] && found.Some? && !reply.Success? ==> reply == Fail(400, MSG_BAD_LOGIN))
        && (reply.Success? ==>
              && reply.code == 200
              && reply.value == Claims(users[found.value].id, users[found.value].role, users[found.value].email)
              && StringFieldMatches(users[found.value].email, Field(body, "email")))
    {
      var errs := LoginErrors(body);
      if errs != [] {
        return Failure(400, errs);
      }
      var found := FindFirst(users, ByEmail(Field(body, "email")));
      if found.None? {
        return Fail(404, MSG_NO_USER_LOGIN);
      }
      var existing := users[found.value];
      if !compare(Field(body, "password").s, existing.password) {
        return Fail(400, MSG_BAD_LOGIN);
      }
      reply := Success(200, Claims(existing.id, existing.role, existing.email));
    }

    /** `changePassword`: a wrong old password changes nothing. */
    method ChangePassword(caller: Caller, body: Body, compare: (string, string) -> bool, hash: string -> string)
      returns (reply: Reply<string>)
      requires Valid()
      modifies this
      ensures Valid()
      ensures var errs := ChangePasswordErrors(body);
              var found := FindFirst(old(users), ById(caller.id));
        && (errs != [] ==> reply == Failure(400, errs))
        && (errs == [] && caller.id.None? ==> reply == Fail(403, "Access denied!"))
        && (errs == [] && caller.id.Some? && found.None? ==> reply == Fail(404, "User not found"))
        && (errs == [] && found.Some? && !compare(Field(body, "oldPassword").s, old(users)[found.value].password) ==>
              reply == Fail(403, MSG_OLD_PASSWORD))
        && (reply.Success? <==>
              errs == [] && found.Some? && compare(Field(body, "oldPassword").s, old(users)[found.value].password))
        && (reply.Success? ==>
              && reply == Success(200, MSG_PASSWORD_CHANGED)
              && users == old(users)[found.value := old(users)[found.value].(password := hash(Field(body, "newPassword").s))])
      ensures reply.Failure? ==> users == old(users)
    {
      var errs := ChangePasswordErrors(body);
      if errs != [] {
        return Failure(400, errs);
      }
      if caller.id.None? {
        return Fail(403, "Access denied!");
      }
      var found := FindFirst(users, ById(caller.id));
      if found.None? {
        return Fail(404, "User not found");
      }
      var k := found.value;
      if !compare(Field(body, "oldPassword").s, users[k].password) {
        return Fail(403, MSG_OLD_PASSWORD);
      }
      var updated := users[k].(password := hash(Field(body, "newPassword").s));
      UniqueKeysUpdate(users, k, updated);
      AdminCountUpdate(users, k, updated);
      users := users[k := updated];
      reply := Success(200, MSG_PASSWORD_CHANGED);
    }

    /** `forgotPassword`: the found user gets the token and an expiry one
        hour after `now`, kept only if the mail goes out. */
    method ForgotPassword(body: Body, token: string, mailSent: bool, now: int) returns (reply: Reply<string>)
      requires Valid()
      modifies this
      ensures Valid()
      ensures var e := ForgotPasswordError(body);
              var found := FindFirst(old(users), ByEmail(Field(body, "email")));
        && (e.Some? ==> reply == Fail(400, e.value))
        && (e.None? && found.None? ==> reply == Fail(404, MSG_NO_USER_EMAIL))
        && (e.None? && found.Some? && !mailSent ==> reply == Fail(500, MSG_RESET_MAIL_FAILED))
        && (reply.Success? <==> e.None? && found.Some? && mailSent)
        && (reply.Success? ==>
              && reply.code == 200
              && users == old(users)[found.value := old(users)[found.value].(
                   resetToken := Some(token), resetTokenExpires := Some(now + RESET_WINDOW))]
              && forall t :: Matches(users[found.value], ByResetToken(Str(token), t)) <==> t < now + RESET_WINDOW)
      ensures reply.Failure? ==> users == old(users)
    {
      var e := ForgotPasswordError(body);
      if e.Some? {
        return Fail(400, e.value);
      }
      var found := FindFirst(users, ByEmail(Field(body, "email")));
      if found.None? {
        return Fail(404, MSG_NO_USER_EMAIL);
      }
      var k := found.value;
      var updated := users[k].(resetToken := Some(token), resetTokenExpires := Some(now + RESET_WINDOW));
      if !mailSent {
        return Fail(500, MSG_RESET_MAIL_FAILED);
      }
      UniqueKeysUpdate(users, k, updated);
      AdminCountUpdate(users, k, updated);
      users := users[k := updated];
      reply := Success(200, "Password reset email sent successfully");
    }

    /** `resetPassword`: a matching unexpired token sets the new password
        and is cleared, so it cannot be used again. */
    method ResetPassword(body: Body, hash: string -> string, now: int) returns (reply: Reply<string>)
      requires Valid()
      modifies this
      ensures Valid()
      ensures var e := ResetDataError(body);
              var found := FindFirst(old(users), ByResetToken(Field(body, "token"), now));
        && (e.Some? ==> reply == Fail(400, e.value))
        && (e.None? && found.None? ==> reply == Fail(400, MSG_BAD_TOKEN))
        && (reply.Success? <==> e.None? && found.Some?)
        && (!Field(body, "token").Str? ==> reply.Failure?)
        && (reply.Success? ==>
              && reply == Success(200, MSG_PASSWORD_CHANGED)
              && users == old(users)[found.value := old(users)[found.value].(
                   password := hash(Field(body, "newPassword").s), resetToken := None, resetTokenExpires := None)]
              && forall tok, t :: !Matches(users[found.value], ByResetToken(tok, t)))
      ensures reply.Failure? ==> users == old(users)
    {
      var e := ResetDataError(body);
      if e.Some? {
        return Fail(400, e.value);
      }
      var token := Field(body, "token");
      if !token.Str? {
        NonStringTokenMatchesNobody(users, token, now);
      }
      var found := FindFirst(users, ByResetToken(token, now));
      if found.None? {
        return Fail(400, MSG_BAD_TOKEN);
      }
      var k := found.value;
      var updated := users[k].(password := hash(Field(body, "newPassword").s), resetToken := None, resetTokenExpires := None);
      UniqueKeysUpdate(users, k, updated);
      AdminCountUpdate(users, k, updated);
      users := users[k := updated];
      reply := Success(200, MSG_PASSWORD_CHANGED);
    }
  }
}
