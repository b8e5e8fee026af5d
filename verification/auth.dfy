/** The token middleware: the token is the second space-separated field of
    the Authorization header; no token is answered with 401, a token the
    verifier refuses with 403, and a verified token hands the decoded
    payload on to the next handler. */
module Auth {
  import opened Common

  /** `s.split(sep)`: the pieces between separators, empty ones included. */
  function Split(s: string, sep: char): (parts: seq<string>)
    ensures |parts| >= 1
    ensures forall i :: 0 <= i < |parts| ==> sep !in parts[i]
  {
    if s == [] then [""]
    else
      var rest := Split(s[1..], sep);
      if s[0] == sep then [""] + rest
      else [[s[0]] + rest[0]] + rest[1..]
  }

  /** `parts.join(sep)`. */
  function Join(parts: seq<string>, sep: char): string
    requires |parts| >= 1
  {
    if |parts| == 1 then parts[0] else parts[0] + [sep] + Join(parts[1..], sep)
  }

  /** Joining the pieces gives back the header. */
  lemma {:induction false} JoinSplit(s: string, sep: char)
    ensures Join(Split(s, sep), sep) == s
  {
    if s != [] {
      JoinSplit(s[1..], sep);
      var rest := Split(s[1..], sep);
      if s[0] == sep {
        assert ([""] + rest)[1..] == rest;
      } else {
        var parts := [[s[0]] + rest[0]] + rest[1..];
        if |rest| == 1 {
          assert Join(parts, sep) == [s[0]] + rest[0];
        } else {
          assert parts[1..] == rest[1..];
          assert Join(rest, sep) == rest[0] + [sep] + Join(rest[1..], sep);
        }
        assert s == [s[0]] + s[1..];
      }
    }
  }

  /** A piece without separators splits to itself. */
  lemma {:induction false} SplitNoSeparator(a: string, sep: char)
    requires sep !in a
    ensures Split(a, sep) == [a]
  {
    if a != [] {
      SplitNoSeparator(a[1..], sep);
      assert [a[0]] + a[1..] == a;
    }
  }

  /** Splitting peels off the text before the first separator. */
  lemma {:induction false} SplitFirst(a: string, sep: char, r: string)
    requires sep !in a
    ensures Split(a + [sep] + r, sep) == [a] + Split(r, sep)
  {
    if a == [] {
      assert a + [sep] + r == [sep] + r;
      assert ([sep] + r)[1..] == r;
    } else {
      SplitFirst(a[1..], sep, r);
      assert (a + [sep] + r)[1..] == a[1..] + [sep] + r;
      assert [a[0]] + a[1..] == a;
    }
  }

  /** `req.headers.authorization?.split(' ')[1]`, when it is truthy. */
  function BearerToken(header: Option<string>): Option<string>
  {
    match header
    case None => None
    case Some(h) =>
      var parts := Split(h, ' ');
      if |parts| >= 2 && parts[1] != "" then Some(parts[1]) else None
  }

  /** The token is the text between the first space and the next one. */
  lemma TokenIsSecondField(scheme: string, token: string, rest: string)
    requires ' ' !in scheme && ' ' !in token && token != ""
    requires rest == "" || rest[0] == ' '
    ensures BearerToken(Some(scheme + " " + token + rest)) == Some(token)
  {
    var h := scheme + " " + token + rest;
    assert h == scheme + [' '] + (token + rest);
    SplitFirst(scheme, ' ', token + rest);
    if rest == "" {
      assert token + rest == token;
      SplitNoSeparator(token, ' ');
    } else {
      assert token + rest == token + [' '] + rest[1..];
      SplitFirst(token, ' ', rest[1..]);
    }
  }

  /** A header without a space carries no token. */
  lemma NoSpaceNoToken(h: string)
    requires ' ' !in h
    ensures BearerToken(Some(h)) == None
  {
    SplitNoSeparator(h, ' ');
  }

  /** A header whose second field is empty carries no token. */
  lemma EmptySecondFieldNoToken(scheme: string, rest: string)
    requires ' ' !in scheme
    requires rest == "" || rest[0] == ' '
    ensures BearerToken(Some(scheme + " " + rest)) == None
  {
    assert scheme + " " + rest == scheme + [' '] + rest;
    SplitFirst(scheme, ' ', rest);
    if rest == "" {
      assert Split(rest, ' ') == [""];
    } else {
      assert rest == [] + [' '] + rest[1..];
      SplitFirst([], ' ', rest[1..]);
    }
  }

  /** What the middleware does with a request: answer it, or call `next`
      once with `req.user` set to the decoded payload. */
  datatype AuthOutcome = Rejected(code: int, message: string) | Next(user: Caller)

  /** `authenticateUser`; `verify` stands for `jwt.verify` with the server
      secret, None meaning that it throws. */
  function Authenticate(header: Option<string>, verify: string -> Option<Caller>): (r: AuthOutcome)
    ensures BearerToken(header).None? ==> r == Rejected(401, "No token provided")
    ensures BearerToken(header).Some? && verify(BearerToken(header).value).None? ==> r == Rejected(403, "Unauthorized")
    ensures r.Next? <==> BearerToken(header).Some? && verify(BearerToken(header).value).Some?
    ensures r.Next? ==> r.user == verify(BearerToken(header).value).value
  {
    match BearerToken(header)
    case None => Rejected(401, "No token provided")
    case Some(token) =>
      match verify(token)
      case None => Rejected(403, "Unauthorized")
      case Some(decoded) => Next(decoded)
  }

  /** A request without an Authorization header is refused before any verification. */
  lemma MissingHeaderRefused(verify: string -> Option<Caller>)
    ensures Authenticate(None, verify) == Rejected(401, "No token provided")
  {}
}
