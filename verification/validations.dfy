/** The request-body schemas, as predicates over the fields each one
    declares. A schema validated with `abortEarly: false` reports every
    failing field; the others stop at the first failing field. */
module Validations {
  import opened Common

  /** `Joi.string().min(k).required()`. */
  predicate StringAtLeast(v: Value, k: nat)
  {
    v.Str? && |v.s| >= k
  }

  /** `Joi.string().email()`, optional: absent, or a non-empty string
      (the address format itself is not checked here). */
  predicate OptionalEmail(v: Value)
  {
    v.Undefined? || (v.Str? && v.s != "")
  }

  /** `Joi.string().email().required()`. */
  predicate RequiredEmail(v: Value)
  {
    v.Str? && v.s != ""
  }

  /** `Joi.number().integer().min(10000).max(999999).required()`. */
  predicate IpssField(v: Value)
  {
    v.Num? && IsInteger(v.n) && IPSS_MIN as real <= v.n <= IPSS_MAX as real
  }

  /** `Joi.string().pattern(/^\d{11}$/).required()`. */
  predicate PhoneField(v: Value)
  {
    v.Str? && |v.s| == 11 && forall i :: 0 <= i < |v.s| ==> IsDigit(v.s[i])
  }

  /** `Joi.string().valid("admin", "user")`. */
  predicate RoleField(role: string)
  {
    role == "admin" || role == "user"
  }

  /** Collects the names of the failing fields, in schema order. */
  function Check(ok: bool, name: string): seq<string>
  {
    if ok then [] else [name]
  }

  /** `ValidateUserData(user, userRole)`: the body's role is replaced by
      `userRole` before validation. */
  function UserDataErrors(body: Body, userRole: string): (errs: seq<string>)
    ensures ("fullName" in errs) <==> !StringAtLeast(Field(body, "fullName"), 5)
    ensures ("email" in errs) <==> !OptionalEmail(Field(body, "email"))
    ensures ("role" in errs) <==> !RoleField(userRole)
    ensures ("ipssNumber" in errs) <==> !IpssField(Field(body, "ipssNumber"))
    ensures ("phoneNumber" in errs) <==> !PhoneField(Field(body, "phoneNumber"))
    ensures forall e :: e in errs ==> e in ["fullName", "email", "role", "ipssNumber", "phoneNumber"]
  {
    var fullName := StringAtLeast(Field(body, "fullName"), 5);
    var email := OptionalEmail(Field(body, "email"));
    var role := RoleField(userRole);
    var ipss := IpssField(Field(body, "ipssNumber"));
    var phone := PhoneField(Field(body, "phoneNumber"));
    UserDataChecks(fullName, email, role, ipss, phone);
    Check(fullName, "fullName") + Check(email, "email") + Check(role, "role")
    + Check(ipss, "ipssNumber") + Check(phone, "phoneNumber")
  }

  /** Which names the five checks of the user-data schema report. */
  lemma UserDataChecks(fullName: bool, email: bool, role: bool, ipss: bool, phone: bool)
    ensures var errs := Check(fullName, "fullName") + Check(email, "email") + Check(role, "role")
                        + Check(ipss, "ipssNumber") + Check(phone, "phoneNumber");
      && (("fullName" in errs) <==> !fullName)
      && (("email" in errs) <==> !email)
      && (("role" in errs) <==> !role)
      && (("ipssNumber" in errs) <==> !ipss)
      && (("phoneNumber" in errs) <==> !phone)
      && (forall e :: e in errs ==> e in ["fullName", "email", "role", "ipssNumber", "phoneNumber"])
  {}

  predicate ValidUserData(body: Body, userRole: string)
  {
    && StringAtLeast(Field(body, "fullName"), 5)
    && OptionalEmail(Field(body, "email"))
    && RoleField(userRole)
    && IpssField(Field(body, "ipssNumber"))
    && PhoneField(Field(body, "phoneNumber"))
  }

  /** With every failure reported, a body passes exactly when no field fails. */
  lemma UserDataValidIffNoErrors(body: Body, userRole: string)
    ensures UserDataErrors(body, userRole) == [] <==> ValidUserData(body, userRole)
  {
    var errs := UserDataErrors(body, userRole);
    if errs != [] {
      assert errs[0] in errs;
    }
  }

  /** `ValidateLoginData`: ipssNumber and a password of at least 8 characters. */
  function LoginErrors(body: Body): (errs: seq<string>)
    ensures errs == [] <==> IpssField(Field(body, "ipssNumber")) && StringAtLeast(Field(body, "password"), 8)
    ensures ("password" in errs) <==> !StringAtLeast(Field(body, "password"), 8)
  {
    Check(IpssField(Field(body, "ipssNumber")), "ipssNumber")
    + Check(StringAtLeast(Field(body, "password"), 8), "password")
  }

  /** `ValidateChangePassword`: both passwords at least 8 characters. */
  function ChangePasswordErrors(body: Body): (errs: seq<string>)
    ensures errs == [] <==> StringAtLeast(Field(body, "oldPassword"), 8) && StringAtLeast(Field(body, "newPassword"), 8)
    ensures ("oldPassword" in errs) <==> !StringAtLeast(Field(body, "oldPassword"), 8)
    ensures ("newPassword" in errs) <==> !StringAtLeast(Field(body, "newPassword"), 8)
  {
    Check(StringAtLeast(Field(body, "oldPassword"), 8), "oldPassword")
    + Check(StringAtLeast(Field(body, "newPassword"), 8), "newPassword")
  }

  /** `ValidateForgotPassword`: a required email (first failure only). */
  function ForgotPasswordError(body: Body): (e: Option<string>)
    ensures e.None? <==> RequiredEmail(Field(body, "email"))
  {
    if RequiredEmail(Field(body, "email")) then None else Some("email")
  }

  /** `ValidateResetData`: ipssNumber, then newPassword; only the first
      failing field is reported. */
  function ResetDataError(body: Body): (e: Option<string>)
    ensures e.None? <==> IpssField(Field(body, "ipssNumber")) && StringAtLeast(Field(body, "newPassword"), 8)
    ensures !IpssField(Field(body, "ipssNumber")) ==> e == Some("ipssNumber")
  {
    if !IpssField(Field(body, "ipssNumber")) then Some("ipssNumber")
    else if !StringAtLeast(Field(body, "newPassword"), 8) then Some("newPassword")
    else None
  }

  /** `ValidateIpss`. */
  function IpssError(body: Body): (e: Option<string>)
    ensures e.None? <==> IpssField(Field(body, "ipssNumber"))
  {
    if IpssField(Field(body, "ipssNumber")) then None else Some("ipssNumber")
  }

  // Joi rejects by default every key an object schema does not declare.
  // The handlers below read keys their schemas do not declare, so the
  // handlers are modelled against the declared-field checks above; the
  // schemas as written are kept here to state the consequences.

  const USER_DATA_KEYS: set<string> := {"fullName", "email", "role", "ipssNumber", "phoneNumber"}
  const LOGIN_KEYS: set<string> := {"ipssNumber", "password"}
  const RESET_KEYS: set<string> := {"ipssNumber", "newPassword"}

  /** `ValidateUserData` as written: the declared fields pass and no other key is present. */
  predicate UserDataAcceptedAsWritten(body: Body, userRole: string)
  {
    UserDataErrors(body, userRole) == [] && body.Keys <= USER_DATA_KEYS
  }

  /** `ValidateLoginData` as written. */
  predicate LoginAcceptedAsWritten(body: Body)
  {
    LoginErrors(body) == [] && body.Keys <= LOGIN_KEYS
  }

  /** `ValidateResetData` as written. */
  predicate ResetAcceptedAsWritten(body: Body)
  {
    ResetDataError(body).None? && body.Keys <= RESET_KEYS
  }

  /** A body a schema accepts as written lacks every undeclared key. */
  lemma UndeclaredKeyAbsent(body: Body, keys: set<string>, key: string)
    requires body.Keys <= keys && key !in keys
    ensures Field(body, key) == Undefined
  {
  }
}
