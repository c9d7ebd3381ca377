/** The guard in front of the authenticated routes: it takes the second
    space-separated field of the Authorization header as the token, verifies
    it, and records the caller's id on the request. */
module Guard {
  import opened Wrappers
  import opened Strings
  import opened Jwt
  import opened Schema

  /** `authHeader?.split(' ')[1]`: None where the header or that field is
      undefined. */
  function ExtractTokenFromHeader(header: Option<string>): (r: Option<string>)
    ensures header.None? ==> r.None?
    ensures header.Some? ==> (r.None? <==> !Contains(header.value, " "))
    ensures r.Some? ==> !Contains(r.value, " ")
  {
    match header
    case None => None
    case Some(h) =>
      var parts := Split(h, " ");
      if |parts| >= 2 then Some(parts[1]) else None
  }

  /** Splitting at the first space: the part before it, then the pieces of
      the rest. */
  lemma SplitAtFirstSpace(a: string, b: string)
    requires !Contains(a, " ")
    ensures Split(a + " " + b, " ") == [a] + Split(b, " ")
  {
    SplitAtFirst(a, b, " ");
  }

  /** The token is the field after the first space, whatever the scheme
      word before it, when nothing follows it. */
  lemma TokenIsSecondField(scheme: string, token: string)
    requires !Contains(scheme, " ") && !Contains(token, " ")
    ensures ExtractTokenFromHeader(Some(scheme + " " + token)) == Some(token)
  {
    SplitAtFirstSpace(scheme, token);
  }

  /** ... and when more fields follow it, which are dropped. */
  lemma TokenIsSecondFieldOfMany(scheme: string, token: string, rest: string)
    requires !Contains(scheme, " ") && !Contains(token, " ")
    ensures ExtractTokenFromHeader(Some(scheme + " " + token + " " + rest)) == Some(token)
  {
    var tail := token + " " + rest;
    assert scheme + " " + token + " " + rest == scheme + " " + tail;
    SplitAtFirstSpace(scheme, tail);
    SplitAtFirstSpace(token, rest);
    var parts := Split(scheme + " " + tail, " ");
    assert parts == [scheme] + ([token] + Split(rest, " "));
    assert parts[1] == token;
  }

  /** The scheme word is not checked: "Basic x" yields "x". */
  lemma BasicSchemeYieldsToken()
    ensures ExtractTokenFromHeader(Some("Basic x")) == Some("x")
  {
    assert !Contains("Basic", " ") by {
      forall j | 0 <= j <= 5 ensures !OccursAt("Basic", " ", j) {
        if j < 5 { assert "Basic"[j..j + 1][0] == "Basic"[j]; }
      }
    }
    assert !Contains("x", " ") by {
      assert "x"[0..1][0] == 'x';
      assert !OccursAt("x", " ", 0);
    }
    TokenIsSecondField("Basic", "x");
    assert "Basic" + " " + "x" == "Basic x";
  }

  /** The `canActivate` decision: Unauthorized for a missing or empty token
      and for one that does not verify; otherwise the payload's `userId`,
      which may itself be undefined. */
  function Authenticate(header: Option<string>, jwt: JwtService): (r: Result<Option<UserId>>)
    ensures r.Err? ==> r.error == Unauthorized
    ensures !Truthy(ExtractTokenFromHeader(header)) ==> r.Err?
    ensures Truthy(ExtractTokenFromHeader(header)) ==>
              var p := jwt.verify(ExtractTokenFromHeader(header).value);
              (r.Ok? <==> p.Some?) && (r.Ok? ==> r.value == p.value.userId)
  {
    var token := ExtractTokenFromHeader(header);
    if !Truthy(token) then Err(Unauthorized)
    else match jwt.verify(token.value)
      case None => Err(Unauthorized)
      case Some(p) => Ok(p.userId)
  }

  /** A header "Bearer <t>" with a token the service signed for `u` passes,
      as `u`, when that token is non-empty and has no space in it. */
  lemma SignedBearerPasses(jwt: JwtService, u: UserId)
    requires SignedVerifies(jwt)
    requires jwt.sign(u) != "" && !Contains(jwt.sign(u), " ")
    ensures Authenticate(Some("Bearer " + jwt.sign(u)), jwt) == Ok(Some(u))
  {
    assert !Contains("Bearer", " ") by {
      forall j | 0 <= j <= 6 ensures !OccursAt("Bearer", " ", j) {
        if j < 6 { assert "Bearer"[j..j + 1][0] == "Bearer"[j]; }
      }
    }
    TokenIsSecondField("Bearer", jwt.sign(u));
    assert "Bearer" + " " + jwt.sign(u) == "Bearer " + jwt.sign(u);
  }

  /** Two spaces after the scheme give an empty token, which is refused. */
  lemma DoubleSpaceIsRefused(jwt: JwtService, t: string)
    ensures Authenticate(Some("Bearer  " + t), jwt) == Err(Unauthorized)
  {
    assert !Contains("Bearer", " ") by {
      forall j | 0 <= j <= 6 ensures !OccursAt("Bearer", " ", j) {
        if j < 6 { assert "Bearer"[j..j + 1][0] == "Bearer"[j]; }
      }
    }
    SplitAtFirstSpace("Bearer", " " + t);
    SplitAtFirstSpace("", t);
    assert "Bearer" + " " + (" " + t) == "Bearer  " + t;
    assert "" + " " + t == " " + t;
  }

  /** The part of an HTTP request the guard reads and writes. */
  class Request {
    const authorization: Option<string>
    var userId: Option<UserId>

    constructor (authorization: Option<string>)
      ensures this.authorization == authorization && userId == None
    {
      this.authorization := authorization;
      userId := None;
    }
  }

  class AuthGuard {
    const jwt: JwtService

    constructor (jwt: JwtService)
      ensures this.jwt == jwt
    {
      this.jwt := jwt;
    }

    /** `canActivate`: true, with `request.userId` set, when the token
        verifies; Unauthorized, with the request untouched, otherwise. */
    method CanActivate(request: Request) returns (r: Result<bool>)
      modifies request
      ensures r.Err? <==> Authenticate(request.authorization, jwt).Err?
      ensures r.Err? ==> r.error == Unauthorized && request.userId == old(request.userId)
      ensures r.Ok? ==> r.value && request.userId == Authenticate(request.authorization, jwt).value
    {
      var decision := Authenticate(request.authorization, jwt);
      if decision.Err? {
        return Err(Unauthorized);
      }
      request.userId := decision.value;
      return Ok(true);
    }
  }
}
