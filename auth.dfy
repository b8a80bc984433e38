/** The authentication middleware: the bearer token taken from the
    `Authorization` header (section 2.1 of RFC 6750 gives the header's form,
    `Bearer <token>`), its verification, and the role gate. Signature
    verification is a parameter: it maps a token to its payload, or to nothing
    when the token is invalid or expired. */
module Auth {
  import opened Common
  import opened Tables

  /** `s.split(sep)`: the maximal runs between separators, empty runs included. */
  function Split(s: string, sep: char): (r: seq<string>)
    ensures |r| >= 1
    ensures forall k | 0 <= k < |r| :: sep !in r[k]
    ensures Join(r, sep) == s
  {
    if s == [] then [[]]
    else if s[0] == sep then
      var rest := Split(s[1..], sep);
      assert s == [sep] + s[1..];
      [[]] + rest
    else
      var rest := Split(s[1..], sep);
      var r := [[s[0]] + rest[0]] + rest[1..];
      assert s == [s[0]] + s[1..];
      assert r[1..] == rest[1..];
      r
  }

  /** `parts.join(sep)`. */
  function Join(parts: seq<string>, sep: char): string
    requires |parts| >= 1
  {
    if |parts| == 1 then parts[0] else parts[0] + [sep] + Join(parts[1..], sep)
  }

  /** A leading run without separators stays glued to the first segment. */
  lemma {:induction false} SplitPrefix(w: string, t: string, sep: char)
    requires sep !in w
    ensures Split(w + t, sep) == [w + Split(t, sep)[0]] + Split(t, sep)[1..]
  {
    if w != [] {
      assert (w + t)[1..] == w[1..] + t;
      SplitPrefix(w[1..], t, sep);
      assert [w[0]] + (w[1..] + Split(t, sep)[0]) == w + Split(t, sep)[0];
    } else {
      var r := Split(t, sep);
      assert w + t == t && w + r[0] == r[0];
      assert [r[0]] + r[1..] == r;
    }
  }

  /** Splitting undoes joining when no segment holds the separator. */
  lemma {:induction false} SplitJoin(parts: seq<string>, sep: char)
    requires |parts| >= 1
    requires forall k | 0 <= k < |parts| :: sep !in parts[k]
    ensures Split(Join(parts, sep), sep) == parts
  {
    if |parts| == 1 {
      SplitPrefix(parts[0], [], sep);
      assert parts[0] + [] == parts[0];
    } else {
      SplitJoin(parts[1..], sep);
      SplitCons(parts[0], Join(parts[1..], sep), sep);
      assert [parts[0]] + parts[1..] == parts;
    }
  }

  /** A separator-free segment in front of a separator adds one segment. */
  lemma SplitCons(first: string, rest: string, sep: char)
    requires sep !in first
    ensures Split(first + [sep] + rest, sep) == [first] + Split(rest, sep)
  {
    var t := [sep] + rest;
    var tail := Split(rest, sep);
    SplitAfterSeparator(rest, sep);
    assert Split(t, sep) == [[]] + tail;
    assert Split(t, sep)[0] == [] && Split(t, sep)[1..] == tail;
    SplitPrefix(first, t, sep);
    assert first + [] == first;
    assert first + [sep] + rest == first + t;
  }

  /** A leading separator opens an empty first segment. */
  lemma SplitAfterSeparator(rest: string, sep: char)
    ensures Split([sep] + rest, sep) == [[]] + Split(rest, sep)
  {
    var t := [sep] + rest;
    assert t[0] == sep && t[1..] == rest;
  }

  /** `authHeader && authHeader.split(' ')[1]`, kept only when truthy: the
      second space-separated segment of the header. The scheme word in front
      is not checked. */
  function BearerToken(header: Option<string>): (t: Option<string>)
    ensures t.Some? ==> t.value != "" && ' ' !in t.value
    ensures !Truthy(header) ==> t.None?
  {
    if !Truthy(header) then None
    else
      var parts := Split(header.value, ' ');
      if |parts| < 2 || parts[1] == "" then None else Some(parts[1])
  }

  /** A header made of space-free segments yields its second segment; the
      first (the scheme) is not looked at and anything after a further space
      is ignored. */
  lemma BearerTokenOfSegments(parts: seq<string>)
    requires |parts| >= 2 && parts[1] != ""
    requires forall k | 0 <= k < |parts| :: ' ' !in parts[k]
    ensures BearerToken(Some(Join(parts, ' '))) == Some(parts[1])
  {
    SplitJoin(parts, ' ');
    assert Join(parts, ' ') == parts[0] + [' '] + Join(parts[1..], ' ');
  }

  /** The form of section 2.1 of RFC 6750: `Bearer <token>` yields the token. */
  lemma BearerHeaderRoundTrip(token: string)
    requires ' ' !in token && token != ""
    ensures BearerToken(Some("Bearer " + token)) == Some(token)
  {
    var parts := ["Bearer", token];
    assert ' ' !in parts[0] && ' ' !in parts[1];
    BearerTokenOfSegments(parts);
    assert parts[1..] == [token];
    assert Join(parts, ' ') == "Bearer" + [' '] + token;
    assert "Bearer" + [' '] + token == "Bearer " + token;
  }

  /** A header with no space in it carries no token. */
  lemma NoSpaceNoToken(header: string)
    requires ' ' !in header
    ensures BearerToken(Some(header)).None?
  {
    SplitJoin([header], ' ');
  }

  /** What a middleware does: call `next` for this user, or answer with an error. */
  datatype Gate = Next(user: Actor) | Stop(error: HttpError)

  /** The two outcomes of a token check that stop the request: no token (401)
      and a token that does not verify (403), each with its own message. */
  function TokenGate(header: Option<string>, verify: string -> Option<Actor>, missing: string, invalid: string)
    : (g: Gate)
    ensures g.Stop? && g.error == Fail(401, missing) <==> BearerToken(header).None?
    ensures g.Stop? && g.error == Fail(403, invalid) <==>
      BearerToken(header).Some? && verify(BearerToken(header).value).None?
    ensures g.Next? ==> Some(g.user) == verify(BearerToken(header).value)
  {
    match BearerToken(header)
    case None => Stop(Fail(401, missing))
    case Some(token) =>
      match verify(token)
      case None => Stop(Fail(403, invalid))
      case Some(payload) => Next(payload)
  }

  const AccessDenied := "Access denied"
  const InvalidToken := "Invalid token"
  const InsufficientPermissions := "Insufficient permissions"

  /** `authenticateToken` of the shared middleware: 401 without a token, 403
      when verification fails, otherwise `next` with the verified payload. */
  function Authenticate(header: Option<string>, verify: string -> Option<Actor>): (g: Gate)
    ensures g.Stop? ==> g.error == Fail(401, AccessDenied) || g.error == Fail(403, InvalidToken)
    ensures g.Stop? && g.error.status == 401 <==> BearerToken(header).None?
    ensures g.Next? <==> BearerToken(header).Some? && verify(BearerToken(header).value).Some?
  {
    TokenGate(header, verify, AccessDenied, InvalidToken)
  }

  const NullToken := "Null token"
  const TokenInvalid := "Token invalid"

  /** The copy of `authenticateToken` that the message, document and user
      routes each declare for themselves: the same checks, other messages. */
  function RouteAuthenticate(header: Option<string>, verify: string -> Option<Actor>): (g: Gate)
    ensures g.Stop? ==> g.error == Fail(401, NullToken) || g.error == Fail(403, TokenInvalid)
    ensures g.Stop? && g.error.status == 401 <==> BearerToken(header).None?
    ensures g.Next? <==> BearerToken(header).Some? && verify(BearerToken(header).value).Some?
  {
    TokenGate(header, verify, NullToken, TokenInvalid)
  }

  /** The copies decide alike: the same requests pass with the same payload and
      the same ones are stopped with the same status; only the text differs. */
  lemma RouteAuthenticateAgrees(header: Option<string>, verify: string -> Option<Actor>)
    ensures RouteAuthenticate(header, verify).Next? <==> Authenticate(header, verify).Next?
    ensures RouteAuthenticate(header, verify).Next? ==>
      RouteAuthenticate(header, verify).user == Authenticate(header, verify).user
    ensures RouteAuthenticate(header, verify).Stop? ==>
      RouteAuthenticate(header, verify).error.status == Authenticate(header, verify).error.status
  {
  }

  /** `authorizeRole(roles)`: `next` exactly when a user is attached and its
      role is one of `roles`; otherwise 403. */
  function AuthorizeRole(roles: seq<Role>, user: Option<Actor>): (g: Gate)
    ensures g.Next? <==> user.Some? && user.value.role in roles
    ensures g.Next? ==> g.user == user.value
    ensures g.Stop? ==> g.error == Fail(403, InsufficientPermissions)
  {
    if user.None? || user.value.role !in roles then Stop(Fail(403, InsufficientPermissions))
    else Next(user.value)
  }

  /** `authenticateToken` followed by `authorizeRole(roles)`, as the routes chain them. */
  function Guard(header: Option<string>, verify: string -> Option<Actor>, roles: seq<Role>): Gate {
    match Authenticate(header, verify)
    case Stop(e) => Stop(e)
    case Next(u) => AuthorizeRole(roles, Some(u))
  }

  /** A guarded route is reached exactly by a valid token whose payload carries
      one of the route's roles; every other request is stopped with 401 or 403. */
  lemma GuardAdmits(header: Option<string>, verify: string -> Option<Actor>, roles: seq<Role>)
    ensures Guard(header, verify, roles).Next? <==>
      BearerToken(header).Some? && verify(BearerToken(header).value).Some? &&
      verify(BearerToken(header).value).value.role in roles
    ensures Guard(header, verify, roles).Stop? ==> Guard(header, verify, roles).error.status in {401, 403}
  {
  }

  /** The request object: its header, and the `user` field the middleware fills. */
  class Request {
    const authorization: Option<string>
    var user: Option<Actor>

    constructor (authorization: Option<string>)
      ensures this.authorization == authorization && user == None
    {
      this.authorization := authorization;
      user := None;
    }
  }

  /** `authenticateToken` on a request: sets `req.user` to the verified payload
      before calling `next`, and leaves it alone when it answers with an error. */
  method AuthenticateToken(req: Request, verify: string -> Option<Actor>) returns (g: Gate)
    modifies req
    ensures g == Authenticate(req.authorization, verify)
    ensures g.Next? ==> req.user == Some(g.user)
    ensures g.Stop? ==> req.user == old(req.user)
  {
    var token := BearerToken(req.authorization);
    if token.None? {
      return Stop(Fail(401, AccessDenied));
    }
    var verified := verify(token.value);
    if verified.None? {
      return Stop(Fail(403, InvalidToken));
    }
    req.user := verified;
    g := Next(verified.value);
  }
}
