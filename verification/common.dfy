/** Shared vocabulary of the backend: optional values, the loosely typed
    values a JSON request body can carry, HTTP replies and the
    authenticated caller that the token middleware attaches to a request. */
module Common {

  datatype Option<+T> = None | Some(value: T)

  /** Identifier of a stored user document (a Mongo ObjectId in the system). */
  type UserId = nat

  /** A field of a JSON request body, as JavaScript sees it after parsing. */
  datatype Value = Undefined | Null | Num(n: real) | Str(s: string) | Bool(b: bool)

  /** JavaScript truthiness: `!v` holds exactly for these values
      (NaN is not representable here). */
  predicate Falsy(v: Value)
  {
    || v.Undefined?
    || v.Null?
    || (v.Num? && v.n == 0.0)
    || (v.Str? && v.s == "")
    || (v.Bool? && !v.b)
  }

  /** A request body: field name to value; a missing key reads as undefined. */
  type Body = map<string, Value>

  function Field(body: Body, key: string): Value
  {
    if key in body then body[key] else Undefined
  }

  predicate IsInteger(x: real)
  {
    x.Floor as real == x
  }

  predicate IsDigit(c: char)
  {
    '0' <= c <= '9'
  }

  /** The answer a handler sends: a success status with a payload, or an
      error status with the messages of the JSON error body. */
  datatype Reply<+T> = Success(code: int, value: T) | Failure(code: int, errors: seq<string>)

  function Fail<T>(code: int, message: string): Reply<T>
  {
    Failure(code, [message])
  }

  /** The decoded token payload stored in `req.user`. */
  datatype Caller = Caller(id: Option<UserId>, role: string)

  /** A calendar date as the server clock reports it (month 1..12). */
  datatype Date = Date(year: int, month: int, day: int)

  /** Bounds every ipssNumber field is declared with. */
  const IPSS_MIN: int := 10000
  const IPSS_MAX: int := 999999

  predicate IpssInRange(n: int)
  {
    IPSS_MIN <= n <= IPSS_MAX
  }
}
