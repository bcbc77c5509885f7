/** The session resolver (src/middleware/auth.middleware.ts): every request
    starts unauthenticated; a non-empty "Bearer " token is verified, and
    either becomes the request's identity or is passed on as an error.

    Token verification is the parameter `verify`; `AuthService.VerifyToken`
    is the implementation the lemmas plug in. */
module AuthMiddleware {
  import opened Wrappers
  import opened Text
  import opened AuthTypes
  import opened Errors
  import Jwt
  import AuthService

  /** What the middleware leaves behind: `req.auth`, the identity registered
      in the request's DI container (if any), and the arguments of every call
      of `next`, in order (None for a call without an error) */
  datatype Outcome = Outcome(auth: AuthData, di: Option<AuthData>, nextCalls: seq<Option<AppError>>)

  const BearerPrefix := "Bearer "

  /** The header minus its first seven characters, when it starts with
      "Bearer " (case-sensitive); the rest is not trimmed */
  function BearerToken(header: Option<string>): (r: Option<string>)
    ensures r.Some? <==> header.Some? && StartsWith(header.value, BearerPrefix)
    ensures r.Some? ==> header.value == BearerPrefix + r.value
  {
    if header.Some? && StartsWith(header.value, BearerPrefix)
    then Some(header.value[7..])
    else None
  }

  /** authMiddleware. `prior` is whatever `req.auth` held before; it is always
      overwritten. */
  function Resolve(prior: AuthData, header: Option<string>, verify: string -> Result<AuthData, AppError>): (o: Outcome)
    ensures |o.nextCalls| == 1
    ensures o.auth.Authenticated? ==> o.di == Some(o.auth) && o.nextCalls == [None]
    ensures o.auth.Authenticated? <==>
      BearerToken(header).Some? && BearerToken(header).value != "" && verify(BearerToken(header).value).Success?
      && verify(BearerToken(header).value).value.Authenticated?
    ensures o.nextCalls[0].Some? <==>
      BearerToken(header).Some? && BearerToken(header).value != "" && verify(BearerToken(header).value).Failure?
    ensures o.nextCalls[0].Some? ==> o.nextCalls[0].value == verify(BearerToken(header).value).error
    ensures o.nextCalls[0].Some? ==> o.auth == Unauthenticated && o.di.None?
  {
    var initial := Outcome(Unauthenticated, None, []);
    match BearerToken(header)
    case None => initial.(nextCalls := [None])
    case Some(token) =>
      if token == "" then initial.(nextCalls := [None])
      else
        match verify(token)
        case Failure(e) => initial.(nextCalls := [Some(e)])
        case Success(a) => Outcome(a, Some(a), [None])
  }

  // ---------------------------------------------------------------------
  // Lemmas

  /** The token is everything after "Bearer ", spaces included */
  lemma BearerTokenNotTrimmed(t: string)
    ensures BearerToken(Some(BearerPrefix + t)) == Some(t)
  {
    assert (BearerPrefix + t)[..7] == BearerPrefix;
    assert (BearerPrefix + t)[7..] == t;
  }

  /** The scheme is case-sensitive and a missing header is no token */
  lemma LowercaseSchemeIgnored(t: string)
    ensures BearerToken(Some("bearer " + t)).None?
    ensures BearerToken(None).None?
  {
    assert ("bearer " + t)[0] == 'b';
  }

  /** Without a usable token the request proceeds unauthenticated, with no
      error, whatever `req.auth` held before */
  lemma NoTokenProceedsUnauthenticated(prior: AuthData, header: Option<string>, verify: string -> Result<AuthData, AppError>)
    requires BearerToken(header).None? || BearerToken(header) == Some("")
    ensures Resolve(prior, header, verify) == Outcome(Unauthenticated, None, [None])
  {
  }

  /** The outcome does not depend on what `req.auth` held before */
  lemma PriorIgnored(p1: AuthData, p2: AuthData, header: Option<string>, verify: string -> Result<AuthData, AppError>)
    ensures Resolve(p1, header, verify) == Resolve(p2, header, verify)
  {
  }

  /** With the corrected verification, a header carrying a token issued at
      `issuedAt` authenticates the request as the user it was issued for
      while the token is valid, and passes UnauthorizedError('Invalid token')
      to `next` after that */
  lemma IssuedTokenResolves(p: Jwt.Platform, cfg: Jwt.AuthConfig, auth: AuthData, issuedAt: int, now: int, prior: AuthData)
    requires Jwt.RoundTripLaws(p) && auth.Authenticated?
    ensures var t := Jwt.GenerateToken(p, cfg.secret, Jwt.IssueClaims(auth, cfg, issuedAt));
      var o := Resolve(prior, Some(BearerPrefix + t), (s: string) => AuthService.VerifyToken(p, cfg, now, s));
      && (issuedAt <= now <= issuedAt + Jwt.TokenLifetime ==> o == Outcome(auth, Some(auth), [None]))
      && (!(issuedAt <= now <= issuedAt + Jwt.TokenLifetime) ==>
            o == Outcome(Unauthenticated, None, [Some(Unauthorized(AuthService.InvalidToken))]))
  {
    var t := Jwt.GenerateToken(p, cfg.secret, Jwt.IssueClaims(auth, cfg, issuedAt));
    BearerTokenNotTrimmed(t);
    AuthService.VerifyIssuedToken(p, cfg, auth, issuedAt, now);
    assert t != "" by {
      assert |Split(t, '.')| == 3;
    }
  }
}
