/** The stored user document, its schema constraints and the lookups the
    controllers run against the user collection. */
module UserModel {
  import opened Common

  const ROLE_ADMIN: string := "admin"
  const ROLE_USER: string := "user"
  const DEFAULT_ROLE: string := ROLE_USER

  /** A user document. Optional fields are the ones a document may lack;
      `password` holds the bcrypt hash. */
  datatype User = User(
    id: UserId,
    fullName: string,
    role: string,
    ipssNumber: Option<int>,
    email: Option<string>,
    password: string,
    resetToken: Option<string>,
    resetTokenExpires: Option<int>,
    createdAt: int)

  /** A new document as `new userModel({...})` builds it: an omitted role
      takes the default, the reset token and its expiry start out null. */
  function NewUser(id: UserId, fullName: string, role: Option<string>, ipssNumber: Option<int>,
                   email: Option<string>, password: string, now: int): (u: User)
    ensures role.None? ==> u.role == ROLE_USER
    ensures role.Some? ==> u.role == role.value
    ensures u.resetToken.None? && u.resetTokenExpires.None?
    ensures u.id == id && u.fullName == fullName && u.ipssNumber == ipssNumber
    ensures u.email == email && u.password == password && u.createdAt == now
  {
    var r := match role case Some(given) => given case None => DEFAULT_ROLE;
    User(id, fullName, r, ipssNumber, email, password, None, None, now)
  }

  /** The ipssNumber validator: it must be present (non-zero) for a user. */
  predicate IpssPresentForRole(role: string, ipss: Option<int>)
  {
    role == ROLE_USER ==> ipss.Some? && ipss.value != 0
  }

  /** Whether a document passes the schema's per-document validators
      (uniqueness is a property of the collection, below). */
  predicate UserSchemaValid(u: User)
  {
    && u.fullName != ""
    && (u.role == ROLE_ADMIN || u.role == ROLE_USER)
    && IpssPresentForRole(u.role, u.ipssNumber)
    && (u.ipssNumber.Some? ==> IpssInRange(u.ipssNumber.value))
    && u.email.Some? && u.email.value != ""
    && u.password != ""
  }

  /** The schema demands an ipssNumber exactly for role "user". */
  lemma IpssRequiredExactlyForUsers(u: User)
    requires u.fullName != "" && u.email.Some? && u.email.value != "" && u.password != ""
    requires u.role == ROLE_ADMIN || u.role == ROLE_USER
    requires u.ipssNumber.None?
    ensures UserSchemaValid(u) <==> u.role == ROLE_ADMIN
  {}

  /** The unique indexes of the collection: email and ipssNumber. */
  ghost predicate UniqueKeys(users: seq<User>)
  {
    forall i, j :: 0 <= i < j < |users| ==>
      users[i].email != users[j].email
      && (users[i].ipssNumber.Some? ==> users[i].ipssNumber != users[j].ipssNumber)
  }

  /** The filters the controllers pass to `findOne`. */
  datatype Query =
    | ById(id: Option<UserId>)
    | ByEmail(email: Value)
    | ByEmailOrIpss(email: Value, ipss: Option<int>)
    | ByResetToken(token: Value, now: int)

  /** How a filter on a string field treats the request value: a string
      matches that string, an undefined or null value matches a missing field. */
  predicate StringFieldMatches(field: Option<string>, v: Value)
  {
    match v
    case Str(s) => field == Some(s)
    case Undefined => field.None?
    case Null => field.None?
    case _ => false
  }

  predicate Matches(u: User, q: Query)
  {
    match q
    case ById(id) => id == Some(u.id)
    case ByEmail(email) => StringFieldMatches(u.email, email)
    case ByEmailOrIpss(email, ipss) => StringFieldMatches(u.email, email) || (ipss.Some? && u.ipssNumber == ipss)
    case ByResetToken(token, now) =>
      StringFieldMatches(u.resetToken, token)
      && u.resetTokenExpires.Some? && u.resetTokenExpires.value > now
  }

  /** `findOne(filter)`: the position of the first matching document. */
  function FindFirst(users: seq<User>, q: Query): (r: Option<nat>)
    ensures r.Some? ==> r.value < |users| && Matches(users[r.value], q)
    ensures r.Some? ==> forall j :: 0 <= j < r.value ==> !Matches(users[j], q)
    ensures r.None? ==> forall j :: 0 <= j < |users| ==> !Matches(users[j], q)
  {
    if users == [] then None
    else if Matches(users[0], q) then Some(0)
    else match FindFirst(users[1..], q)
      case None => None
      case Some(k) => Some(k + 1)
  }

  /** `findOne({_id})` resolved to the document itself. */
  function FindUser(users: seq<User>, id: Option<UserId>): (r: Option<User>)
    ensures r.Some? <==> exists i :: 0 <= i < |users| && id == Some(users[i].id)
    ensures r.Some? ==> r.value in users && Some(r.value.id) == id
  {
    match FindFirst(users, ById(id))
    case None => None
    case Some(k) => Some(users[k])
  }
}
