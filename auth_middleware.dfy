/** The bearer-token guard in front of the authenticated routes and the admin
    role check (middlewares/authMiddleware.js). */
module AuthMiddleware {
  import opened Base
  import opened Records

  // ---------------------------------------------------------------------------
  // `String.prototype.split(" ")`

  /** The pieces of a header between single spaces; none contains a space. */
  predicate SpaceFree(parts: seq<string>)
  {
    |parts| >= 1 && forall i :: 0 <= i < |parts| ==> ' ' !in parts[i]
  }

  /** `s.split(" ")`: every space ends a field, so two spaces in a row give an
      empty field, and the empty string gives one empty field. */
  function Split(s: string): (parts: seq<string>)
    ensures SpaceFree(parts)
  {
    if s == [] then [""]
    else
      var rest := Split(s[1..]);
      if s[0] == ' ' then [""] + rest
      else [[s[0]] + rest[0]] + rest[1..]
  }

  /** `parts.join(" ")`, the inverse of `Split`. */
  function Join(parts: seq<string>): string
    requires |parts| >= 1
  {
    if |parts| == 1 then parts[0] else parts[0] + " " + Join(parts[1..])
  }

  lemma {:induction false} JoinSplit(s: string)
    ensures Join(Split(s)) == s
  {
    if s != [] {
      var rest := Split(s[1..]);
      JoinSplit(s[1..]);
      if s[0] == ' ' {
        assert ([""] + rest)[1..] == rest;
      } else {
        var parts := [[s[0]] + rest[0]] + rest[1..];
        assert parts[1..] == rest[1..];
        if |rest| == 1 {
          assert Join(parts) == [s[0]] + rest[0];
        } else {
          assert Join(rest) == rest[0] + " " + Join(rest[1..]);
        }
        assert s == [s[0]] + s[1..];
      }
    }
  }

  /** Splitting a field with no space followed by anything: the field is glued
      to the first field of the rest. */
  lemma {:induction false} SplitPrefix(w: string, t: string)
    requires ' ' !in w
    ensures Split(w + t) == [w + Split(t)[0]] + Split(t)[1..]
  {
    var r := Split(t);
    if w == [] {
      assert w + t == t && w + r[0] == r[0];
      assert r == [r[0]] + r[1..];
    } else {
      SplitPrefix(w[1..], t);
      assert (w + t)[1..] == w[1..] + t;
      assert (w + t)[0] == w[0] && w[0] != ' ';
      var rest := Split(w[1..] + t);
      assert rest == [w[1..] + r[0]] + r[1..];
      assert rest[0] == w[1..] + r[0] && rest[1..] == r[1..];
      assert [w[0]] + (w[1..] + r[0]) == w + r[0];
    }
  }

  lemma {:induction false} SplitJoin(parts: seq<string>)
    requires SpaceFree(parts)
    ensures Split(Join(parts)) == parts
  {
    if |parts| == 1 {
      SplitPrefix(parts[0], "");
      assert parts[0] + "" == parts[0];
    } else {
      var t := Join(parts[1..]);
      assert SpaceFree(parts[1..]) by {
        forall i | 0 <= i < |parts[1..]| ensures ' ' !in parts[1..][i] {
          assert parts[1..][i] == parts[i + 1];
        }
      }
      SplitJoin(parts[1..]);
      assert parts[0] + " " + t == parts[0] + (" " + t);
      SplitPrefix(parts[0], " " + t);
      assert (" " + t)[1..] == t;
      assert Split(" " + t) == [""] + parts[1..];
      assert parts[0] + "" == parts[0];
    }
  }

  // ---------------------------------------------------------------------------
  // `authenticateToken`

  /** `req.header("Authorization")?.split(" ")[1]`, when it is truthy. The
      first field, the scheme, is not looked at. */
  function BearerToken(header: Option<string>): (t: Option<string>)
    ensures t.Some? ==> t.value != "" && ' ' !in t.value
  {
    if header.None? then None
    else
      var parts := Split(header.value);
      if |parts| < 2 || parts[1] == "" then None else Some(parts[1])
  }

  /** The token is exactly the second space-separated field of the header,
      whatever the first field says. */
  lemma TokenIsSecondField(h: string, t: string)
    ensures BearerToken(Some(h)) == Some(t) <==>
            exists parts :: SpaceFree(parts) && |parts| >= 2 && Join(parts) == h && parts[1] == t && t != ""
  {
    if BearerToken(Some(h)) == Some(t) {
      JoinSplit(h);
      assert Join(Split(h)) == h;
    }
    if exists parts :: SpaceFree(parts) && |parts| >= 2 && Join(parts) == h && parts[1] == t && t != "" {
      var parts :| SpaceFree(parts) && |parts| >= 2 && Join(parts) == h && parts[1] == t && t != "";
      SplitJoin(parts);
    }
  }

  /** RFC 6750 section 2.1 asks for the scheme word "Bearer"; any scheme
      passes here. */
  lemma {:induction false} AnySchemeAccepted(scheme: string, t: string)
    requires ' ' !in scheme && ' ' !in t && t != ""
    ensures BearerToken(Some(scheme + " " + t)) == Some(t)
  {
    var parts := [scheme, t];
    assert Join(parts[1..]) == t;
    SplitJoin(parts);
  }

  /** What a guard decides: call `next` (with `req.user` set to `user`), or
      answer and stop. */
  datatype Decision = Next(user: Payload) | Deny(response: Response)

  /** `authenticateToken`: no token, 401; a token `jwt.verify` refuses, 403;
      otherwise proceed with the decoded claims. `verify` is `jwt.verify`
      with the server's secret at the current time. */
  function Authenticate(header: Option<string>, verify: string -> Option<Payload>): (d: Decision)
    ensures BearerToken(header).None? ==> d == Deny(Response(401, "Access denied, no token provided", NoBody))
    ensures BearerToken(header).Some? && verify(BearerToken(header).value).None? ==>
              d == Deny(Response(403, "Invalid token", NoBody))
    ensures d.Next? <==> BearerToken(header).Some? && verify(BearerToken(header).value).Some?
    ensures d.Next? ==> Some(d.user) == verify(BearerToken(header).value)
  {
    match BearerToken(header)
    case None => Deny(Response(401, "Access denied, no token provided", NoBody))
    case Some(token) =>
      match verify(token)
      case None => Deny(Response(403, "Invalid token", NoBody))
      case Some(decoded) => Next(decoded)
  }

  /** The condition of `isAdmin`: a user whose role is exactly "admin". */
  predicate IsAdminUser(user: Option<Payload>)
  {
    user.Some? && user.value.role == Some("admin")
  }

  /** One request passing through the middleware chain: the header it carries,
      `req.user`, the response written (if any) and how often `next` ran. */
  class Exchange {
    const authorization: Option<string>
    var user: Option<Payload>
    var response: Option<Response>
    var nextCalls: nat

    constructor (authorization: Option<string>)
      ensures this.authorization == authorization
      ensures user.None? && response.None? && nextCalls == 0
    {
      this.authorization := authorization;
      user := None;
      response := None;
      nextCalls := 0;
    }

    /** `authenticateToken(req, res, next)` */
    method AuthenticateToken(verify: string -> Option<Payload>)
      modifies this
      ensures Authenticate(authorization, verify).Next? ==>
                user == Some(Authenticate(authorization, verify).user) &&
                response == old(response) && nextCalls == old(nextCalls) + 1
      ensures Authenticate(authorization, verify).Deny? ==>
                response == Some(Authenticate(authorization, verify).response) &&
                user == old(user) && nextCalls == old(nextCalls)
    {
      var token := BearerToken(authorization);
      if token.None? {
        response := Some(Response(401, "Access denied, no token provided", NoBody));
        return;
      }
      var decoded := verify(token.value);
      if decoded.None? {
        response := Some(Response(403, "Invalid token", NoBody));
        return;
      }
      user := decoded;
      nextCalls := nextCalls + 1;
    }

    /** `isAdmin(req, res, next)` */
    method IsAdmin()
      modifies this
      ensures user == old(user)
      ensures IsAdminUser(user) ==> response == old(response) && nextCalls == old(nextCalls) + 1
      ensures !IsAdminUser(user) ==>
                response == Some(Response(403, "Access denied, admin only", NoBody)) &&
                nextCalls == old(nextCalls)
    {
      if !IsAdminUser(user) {
        response := Some(Response(403, "Access denied, admin only", NoBody));
        return;
      }
      nextCalls := nextCalls + 1;
    }
  }
}
