/** Login and token verification (src/modules/auth/auth.service.ts).

    Login checks the credentials, issues claims at `now` and signs them.
    Verification reads the claims from the base64url payload segment, then
    requires both the claims check and the signature check; every way of
    failing ends in the same UnauthorizedError('Invalid token').

    `VerifyToken` uses the corrected signature check of `Jwt`;
    `VerifyTokenAsWritten` uses the check as the source writes it. */
module AuthService {
  import opened Wrappers
  import opened Text
  import opened Base64
  import opened AuthTypes
  import opened Errors
  import opened Shared
  import opened Jwt
  import opened PasswordAuth

  const LoginSuccessful := "Login successful"
  const InvalidToken := "Invalid token"

  /** login: authenticate, then issue and sign claims for the identity. A
      failed authentication, or one that is not authenticated, yields no token. */
  function Login(users: UserStore, p: Platform, cfg: AuthConfig, now: int,
                 username: string, password: string): (r: Result<JsonResponse<LoginData>, AppError>)
    ensures var auth := Authenticate(users, username, password);
      && (r.Success? <==> auth.Success? && auth.value.Authenticated?)
      && (auth.Failure? ==> r == Failure(auth.error))
      && (r.Success? ==>
            var c := IssueClaims(auth.value, cfg, now);
            && r.value.successful && r.value.message == LoginSuccessful && r.value.data.Some?
            && var d := r.value.data.value;
            && d.token == GenerateToken(p, cfg.secret, c)
            && d.tokenExpiresAt == now + TokenLifetime
            && d.userId == auth.value.userId
            && d.isAdmin == auth.value.isAdmin && d.isFounder == auth.value.isFounder
            && d.isInvestor == auth.value.isInvestor && d.isCuriousPerson == auth.value.isCuriousPerson)
  {
    var auth :- Authenticate(users, username, password);
    if !auth.Authenticated? then Failure(Unauthorized(InvalidCredentials))
    else
      var c := IssueClaims(auth, cfg, now);
      Success(Ok(LoginSuccessful, LoginData(
        GenerateToken(p, cfg.secret, c), c.exp,
        auth.userId, auth.isAdmin, auth.isFounder, auth.isInvestor, auth.isCuriousPerson)))
  }

  /** The claims verifyToken reads: segment 1, base64url-decoded, UTF-8
      decoded and JSON-parsed; None where that throws */
  function TokenClaims(p: Platform, token: string): (r: Option<JwtPayload>)
    ensures r.Some? ==> |Split(token, '.')| >= 2 && DecodeUrl(Split(token, '.')[1]).Some?
  {
    var parts := Split(token, '.');
    if |parts| < 2 then None
    else
      match DecodeUrl(parts[1])
      case None => None
      case Some(bytes) => p.parse(p.utf8Decode(bytes))
  }

  /** verifyToken with a given signature check: the identity of the token's
      claims when both checks pass, UnauthorizedError('Invalid token')
      otherwise */
  function VerifyTokenWith(check: SignatureCheck, p: Platform, cfg: AuthConfig, now: int, token: string): (r: Result<AuthData, AppError>)
    ensures r.Success? <==>
      && TokenClaims(p, token).Some?
      && ValidatePayload(TokenClaims(p, token).value, cfg, now)
      && ValidateSignature(check, p, cfg.secret, token) == Some(true)
    ensures r.Success? ==> r.value == IdentityOf(TokenClaims(p, token).value)
    ensures r.Failure? ==> r.error == Unauthorized(InvalidToken)
  {
    match TokenClaims(p, token)
    case None => Failure(Unauthorized(InvalidToken))
    case Some(c) =>
      if ValidatePayload(c, cfg, now) && ValidateSignature(check, p, cfg.secret, token) == Some(true)
      then Success(IdentityOf(c))
      else Failure(Unauthorized(InvalidToken))
  }

  /** verifyToken with the corrected signature check */
  function VerifyToken(p: Platform, cfg: AuthConfig, now: int, token: string): (r: Result<AuthData, AppError>)
    ensures r.Success? ==> r.value.Authenticated?
    ensures r.Failure? ==> r.error == Unauthorized(InvalidToken)
  {
    VerifyTokenWith(Corrected, p, cfg, now, token)
  }

  /** verifyToken as the source writes it */
  function VerifyTokenAsWritten(p: Platform, cfg: AuthConfig, now: int, token: string): (r: Result<AuthData, AppError>)
    ensures r.Success? ==> r.value.Authenticated?
    ensures r.Failure? ==> r.error == Unauthorized(InvalidToken)
  {
    VerifyTokenWith(AsWritten, p, cfg, now, token)
  }

  // ---------------------------------------------------------------------
  // Lemmas

  /** The claims read back from a generated token are the claims signed */
  lemma TokenClaimsOfGenerated(p: Platform, secret: string, c: JwtPayload)
    requires RoundTripLaws(p)
    ensures TokenClaims(p, GenerateToken(p, secret, c)) == Some(c)
  {
    DecodeEncodeUrl(p.utf8Encode(p.stringify(c)));
  }

  /** The identity of claims issued for an authenticated user is that user */
  lemma IdentityOfIssuedClaims(auth: AuthData, cfg: AuthConfig, now: int)
    requires auth.Authenticated?
    ensures IdentityOf(IssueClaims(auth, cfg, now)) == auth
  {
  }

  /** Round trip under the corrected check: a token issued at `issuedAt`
      verifies at `now` exactly when `now` lies within its seven days, and then
      gives back the identity it was issued for */
  lemma VerifyIssuedToken(p: Platform, cfg: AuthConfig, auth: AuthData, issuedAt: int, now: int)
    requires RoundTripLaws(p) && auth.Authenticated?
    ensures var t := GenerateToken(p, cfg.secret, IssueClaims(auth, cfg, issuedAt));
      && (VerifyToken(p, cfg, now, t).Success? <==> issuedAt <= now <= issuedAt + TokenLifetime)
      && (VerifyToken(p, cfg, now, t).Success? ==> VerifyToken(p, cfg, now, t).value == auth)
  {
    var c := IssueClaims(auth, cfg, issuedAt);
    TokenClaimsOfGenerated(p, cfg.secret, c);
    CorrectedAcceptsIssued(p, cfg.secret, c);
    IssuedClaimsWindow(auth, cfg, issuedAt, now);
  }

  /** The verification as written accepts no issued token, at any time */
  lemma AsWrittenRejectsEveryIssuedToken(p: Platform, cfg: AuthConfig, c: JwtPayload, now: int)
    requires ShapeLaws(p)
    ensures VerifyTokenAsWritten(p, cfg, now, GenerateToken(p, cfg.secret, c)) == Failure(Unauthorized(InvalidToken))
  {
    AsWrittenRejectsIssued(p, cfg.secret, c);
  }

  /** A login token verifies (under the corrected check) during its lifetime
      to the identity login reported, and its claims expire at the reported
      tokenExpiresAt */
  lemma LoginTokenVerifies(users: UserStore, p: Platform, cfg: AuthConfig, now: int,
                           username: string, password: string, later: int)
    requires RoundTripLaws(p)
    requires Login(users, p, cfg, now, username, password).Success?
    ensures var d := Login(users, p, cfg, now, username, password).value.data.value;
      && TokenClaims(p, d.token).Some?
      && TokenClaims(p, d.token).value.exp == d.tokenExpiresAt
      && (now <= later <= d.tokenExpiresAt ==>
            VerifyToken(p, cfg, later, d.token) ==
              Success(Authenticated(d.userId, d.isFounder, d.isAdmin, d.isInvestor, d.isCuriousPerson)))
  {
    var auth := Authenticate(users, username, password).value;
    var c := IssueClaims(auth, cfg, now);
    TokenClaimsOfGenerated(p, cfg.secret, c);
    VerifyIssuedToken(p, cfg, auth, now, later);
  }

  /** Every token of a successful login is rejected by the verification as
      written */
  lemma LoginTokenRejectedAsWritten(users: UserStore, p: Platform, cfg: AuthConfig, now: int,
                                    username: string, password: string, later: int)
    requires ShapeLaws(p)
    requires Login(users, p, cfg, now, username, password).Success?
    ensures VerifyTokenAsWritten(p, cfg, later, Login(users, p, cfg, now, username, password).value.data.value.token).Failure?
  {
    var auth := Authenticate(users, username, password).value;
    AsWrittenRejectsEveryIssuedToken(p, cfg, IssueClaims(auth, cfg, now), later);
  }
}
