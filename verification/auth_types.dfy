/** The authentication data types: the token claims and user record
    (src/modules/auth/types.ts) and the per-request identity
    (src/types/index.d.ts). */
module AuthTypes {
  import opened Wrappers

  /** Four independent role flags */
  datatype Roles = Roles(founder: bool, admin: bool, investor: bool, curious: bool)

  /** The token claims: subject, issued-at and expiry (Unix seconds), issuer,
      audience and roles */
  datatype JwtPayload = JwtPayload(sub: string, iat: int, exp: int, iss: string, aud: string, roles: Roles)

  /** `req.auth`: either no identity, or a user id with four role flags */
  datatype AuthData =
    | Unauthenticated
    | Authenticated(userId: string, isFounder: bool, isAdmin: bool, isInvestor: bool, isCuriousPerson: bool)

  /** The fields of a user row. The role columns are optional text; a role is
      held when its text is present and non-empty. */
  datatype UserFields = UserFields(
    username: string,
    password: string,
    founder: Option<string>,
    investor: Option<string>,
    admin: Option<string>)

  /** The `data` of a successful login */
  datatype LoginData = LoginData(
    token: string,
    tokenExpiresAt: int,
    userId: string,
    isAdmin: bool,
    isFounder: bool,
    isInvestor: bool,
    isCuriousPerson: bool)

  /** JavaScript truthiness of an optional string */
  predicate Truthy(s: Option<string>) {
    s.Some? && s.value != ""
  }

  /** The identity a set of verified claims stands for */
  function IdentityOf(c: JwtPayload): (r: AuthData)
    ensures r.Authenticated? && r.userId == c.sub
    ensures r.isFounder == c.roles.founder && r.isAdmin == c.roles.admin
    ensures r.isInvestor == c.roles.investor && r.isCuriousPerson == c.roles.curious
  {
    Authenticated(c.sub, c.roles.founder, c.roles.admin, c.roles.investor, c.roles.curious)
  }
}
