/** The credential check (src/modules/auth/password-auth.service.ts): look up
    one user row by username, compare the password with the stored hash and
    read the role flags off the row.

    The users table is reached through `UserStore`: `list` is the listing call
    of the Airtable client (a transport failure, a null result or a page of
    rows), and `compare` is bcrypt's comparison of a plain password with a
    stored hash. */
module PasswordAuth {
  import opened Wrappers
  import opened Text
  import opened Airtable
  import opened AuthTypes
  import opened Errors

  datatype UserStore = UserStore(
    list: ListOptions -> Result<Option<ListResponse<UserFields>>, string>,
    compare: (string, string) -> bool)

  const InvalidCredentials := "Invalid username or password"

  /** The listing options for a username: at most one row, filtered by a
      formula that embeds the username between single quotes, unescaped */
  function UserQuery(username: string): (o: ListOptions)
    ensures o.maxRecords == Some(1) && o.sort.None? && o.offset.None?
    ensures o.filterByFormula == Some("{Username} = '" + username + "'")
  {
    ListOptions(Some("{Username} = '" + username + "'"), Some(1), None, None)
  }

  /** The row the check consults, if the listing produced any */
  function FirstUser(page: Option<ListResponse<UserFields>>): Option<AirtableRecord<UserFields>> {
    if page.Some? && |page.value.records| > 0 then Some(page.value.records[0]) else None
  }

  /** The identity read off a user row: the row id, the truthiness of the
      three role columns, and always a curious person */
  function UserIdentity(row: AirtableRecord<UserFields>): (a: AuthData)
    ensures a.Authenticated? && a.userId == row.id && a.isCuriousPerson
    ensures a.isFounder <==> Truthy(row.fields.founder)
    ensures a.isAdmin <==> Truthy(row.fields.admin)
    ensures a.isInvestor <==> Truthy(row.fields.investor)
  {
    Authenticated(row.id, Truthy(row.fields.founder), Truthy(row.fields.admin), Truthy(row.fields.investor), true)
  }

  /** authenticate: a transport failure propagates; no row, or a password that
      does not match the first row's hash, is an UnauthorizedError with one
      and the same message */
  function Authenticate(users: UserStore, username: string, password: string): (r: Result<AuthData, AppError>)
    ensures var listed := users.list(UserQuery(username));
      && (r.Success? <==>
            listed.Success? && FirstUser(listed.value).Some?
            && users.compare(password, FirstUser(listed.value).value.fields.password))
      && (r.Success? ==> r.value == UserIdentity(FirstUser(listed.value).value))
      && (listed.Failure? ==> r == Failure(PlainError(listed.error)))
      && (listed.Success? && r.Failure? ==> r.error == Unauthorized(InvalidCredentials))
  {
    var listed := users.list(UserQuery(username));
    if listed.Failure? then Failure(PlainError(listed.error))
    else
      match FirstUser(listed.value)
      case None => Failure(Unauthorized(InvalidCredentials))
      case Some(row) =>
        if !users.compare(password, row.fields.password) then Failure(Unauthorized(InvalidCredentials))
        else Success(UserIdentity(row))
  }

  // ---------------------------------------------------------------------
  // Lemmas

  /** The formula is "{Username} = '" ++ username ++ "'"; its text determines
      the username, so distinct usernames are distinct queries */
  lemma UserQueryInjective(u1: string, u2: string)
    requires UserQuery(u1) == UserQuery(u2)
    ensures u1 == u2
  {
    var f1, f2 := UserQuery(u1).filterByFormula.value, UserQuery(u2).filterByFormula.value;
    assert |u1| == |u2|;
    assert u1 == f1[14..|f1| - 1];
    assert u2 == f2[14..|f2| - 1];
  }

  /** Quotes in the username are not escaped: a username can close the string
      literal and add a clause of its own to the formula */
  lemma UsernameNotEscaped()
    ensures UserQuery("x' OR '1'='1").filterByFormula == Some("{Username} = 'x' OR '1'='1'")
  {
    assert "{Username} = '" + "x' OR '1'='1" + "'" == "{Username} = 'x' OR '1'='1'";
  }

  /** An unknown user and a wrong password produce exactly the same error */
  lemma UnknownUserAndWrongPasswordAlike(users1: UserStore, users2: UserStore, username: string, password: string)
    requires users1.list(UserQuery(username)) == Success(Some(ListResponse([], None)))
    requires var l := users2.list(UserQuery(username));
      l.Success? && FirstUser(l.value).Some? && !users2.compare(password, FirstUser(l.value).value.fields.password)
    ensures Authenticate(users1, username, password) == Authenticate(users2, username, password)
    ensures Authenticate(users1, username, password) == Failure(Unauthorized(InvalidCredentials))
  {
  }

  /** Rows after the first are never looked at */
  lemma OnlyFirstRowConsulted(users: UserStore, username: string, password: string,
                              row: AirtableRecord<UserFields>, more: seq<AirtableRecord<UserFields>>, offset: Option<string>)
    requires users.list(UserQuery(username)) == Success(Some(ListResponse([row] + more, offset)))
    ensures Authenticate(users, username, password) ==
      Authenticate(users.(list := (o: ListOptions) => Success(Some(ListResponse([row], None)))), username, password)
  {
  }

  /** A successful check always yields an authenticated curious person, and
      the role flags follow the row's columns */
  lemma SuccessIsAuthenticatedCurious(users: UserStore, username: string, password: string)
    requires Authenticate(users, username, password).Success?
    ensures var a := Authenticate(users, username, password).value;
      a.Authenticated? && a.isCuriousPerson
      && exists row :: FirstUser(users.list(UserQuery(username)).value) == Some(row) && a.userId == row.id
  {
    var row := FirstUser(users.list(UserQuery(username)).value).value;
    assert FirstUser(users.list(UserQuery(username)).value) == Some(row);
  }
}
