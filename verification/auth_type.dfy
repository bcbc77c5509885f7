/** The any-of role gate (src/middleware/auth-type.middleware.ts): a request
    passes when it is authenticated and at least one of the listed roles is
    held. 'admin' grants only the admin role; there is no bypass. Role names
    outside the four known ones are logged and grant nothing. */
module AuthType {
  import opened Wrappers
  import opened Text
  import opened AuthTypes
  import opened Errors

  /** requireAuthType takes one role or a list of roles */
  datatype RoleArg = Single(role: string) | Many(roles: seq<string>)

  datatype Gate = Proceed | Reject(error: AppError)

  const AuthenticationRequired := "Authentication required. Please include a valid token."

  /** A single role is treated as a one-element list */
  function RolesToCheck(arg: RoleArg): (r: seq<string>)
    ensures arg.Single? ==> r == [arg.role]
    ensures arg.Many? ==> r == arg.roles
  {
    match arg
    case Single(role) => [role]
    case Many(roles) => roles
  }

  /** Whether one role name is granted by the identity's flags */
  predicate Grants(auth: AuthData, role: string)
    requires auth.Authenticated?
  {
    if role == "admin" then auth.isAdmin
    else if role == "founder" then auth.isFounder
    else if role == "investor" then auth.isInvestor
    else if role == "curious" then auth.isCuriousPerson
    else false
  }

  /** Whether any listed role is granted, taken left to right */
  predicate AnyGrants(auth: AuthData, roles: seq<string>)
    requires auth.Authenticated?
  {
    |roles| > 0 && (Grants(auth, roles[0]) || AnyGrants(auth, roles[1..]))
  }

  /** The source's loop: scan the roles, stop after the first one granted */
  method Authorize(auth: AuthData, roles: seq<string>) returns (authorized: bool)
    requires auth.Authenticated?
    ensures authorized <==> exists i :: 0 <= i < |roles| && Grants(auth, roles[i])
  {
    authorized := false;
    var k := 0;
    while k < |roles| && !authorized
      invariant 0 <= k <= |roles|
      invariant !authorized ==> forall i :: 0 <= i < k ==> !Grants(auth, roles[i])
      invariant authorized ==> exists i :: 0 <= i < |roles| && Grants(auth, roles[i])
    {
      if Grants(auth, roles[k]) {
        authorized := true;
      }
      k := k + 1;
    }
  }

  /** The ForbiddenError message names the required roles joined by " or " */
  function ForbiddenMessage(roles: seq<string>): string {
    "Access denied. User does not have the required role(s): " + Join(roles, " or ") + "."
  }

  /** requireAuthType(arg) applied to a request whose `req.auth` is `auth` */
  function RequireAuthType(arg: RoleArg, auth: AuthData): (g: Gate)
    ensures auth.Unauthenticated? ==> g == Reject(Unauthorized(AuthenticationRequired))
    ensures auth.Authenticated? ==>
      (g.Proceed? <==> exists i :: 0 <= i < |RolesToCheck(arg)| && Grants(auth, RolesToCheck(arg)[i]))
    ensures auth.Authenticated? && g.Reject? ==> g.error == Forbidden(ForbiddenMessage(RolesToCheck(arg)))
  {
    if auth.Unauthenticated? then Reject(Unauthorized(AuthenticationRequired))
    else
      var roles := RolesToCheck(arg);
      AnyGrantsExists(auth, roles);
      if AnyGrants(auth, roles) then Proceed
      else Reject(Forbidden(ForbiddenMessage(roles)))
  }

  // ---------------------------------------------------------------------
  // Lemmas

  /** The recursive reading agrees with "some listed role is granted" */
  lemma {:induction false} AnyGrantsExists(auth: AuthData, roles: seq<string>)
    requires auth.Authenticated?
    ensures AnyGrants(auth, roles) <==> exists i :: 0 <= i < |roles| && Grants(auth, roles[i])
  {
    if |roles| > 0 {
      AnyGrantsExists(auth, roles[1..]);
      if Grants(auth, roles[0]) {
        assert 0 < |roles| && Grants(auth, roles[0]);
      }
      if exists i :: 0 <= i < |roles| && Grants(auth, roles[i]) {
        var i :| 0 <= i < |roles| && Grants(auth, roles[i]);
        if i > 0 {
          assert roles[1..][i - 1] == roles[i];
        }
      }
      if exists j :: 0 <= j < |roles[1..]| && Grants(auth, roles[1..][j]) {
        var j :| 0 <= j < |roles[1..]| && Grants(auth, roles[1..][j]);
        assert roles[j + 1] == roles[1..][j];
      }
    }
  }

  /** Only the set of listed roles matters: reordering or repeating them does
      not change the outcome */
  lemma OrderAndDuplicatesIrrelevant(auth: AuthData, roles1: seq<string>, roles2: seq<string>)
    requires auth.Authenticated?
    requires forall r :: r in roles1 <==> r in roles2
    ensures RequireAuthType(Many(roles1), auth).Proceed? == RequireAuthType(Many(roles2), auth).Proceed?
  {
    if RequireAuthType(Many(roles1), auth).Proceed? {
      var i :| 0 <= i < |roles1| && Grants(auth, roles1[i]);
      assert roles1[i] in roles2;
      var j :| 0 <= j < |roles2| && roles2[j] == roles1[i];
    }
    if RequireAuthType(Many(roles2), auth).Proceed? {
      var i :| 0 <= i < |roles2| && Grants(auth, roles2[i]);
      assert roles2[i] in roles1;
      var j :| 0 <= j < |roles1| && roles1[j] == roles2[i];
    }
  }

  /** A single role and the one-element list behave alike */
  lemma SingleIsOneElementList(role: string, auth: AuthData)
    ensures RequireAuthType(Single(role), auth) == RequireAuthType(Many([role]), auth)
  {
  }

  /** No admin bypass: an identity holding only the admin role is forbidden
      from a founder-only route */
  lemma NoAdminBypass(userId: string)
    ensures RequireAuthType(Single("founder"), Authenticated(userId, false, true, false, false)) ==
      Reject(Forbidden(ForbiddenMessage(["founder"])))
  {
    var auth := Authenticated(userId, false, true, false, false);
    assert !Grants(auth, "founder");
  }

  /** Unknown role names grant nothing: a list made only of them is always
      forbidden, and adding them to a list changes nothing */
  lemma UnknownRolesNeverAuthorize(auth: AuthData, known: seq<string>, unknown: seq<string>)
    requires auth.Authenticated?
    requires forall i :: 0 <= i < |unknown| ==> unknown[i] !in {"admin", "founder", "investor", "curious"}
    ensures RequireAuthType(Many(unknown), auth).Reject?
    ensures RequireAuthType(Many(known + unknown), auth).Proceed? == RequireAuthType(Many(known), auth).Proceed?
  {
    forall i | 0 <= i < |unknown| ensures !Grants(auth, unknown[i]) {
      assert unknown[i] !in {"admin", "founder", "investor", "curious"};
    }
    var all := known + unknown;
    if RequireAuthType(Many(all), auth).Proceed? {
      var i :| 0 <= i < |all| && Grants(auth, all[i]);
      assert i < |known|;
      assert all[i] == known[i];
    }
    if RequireAuthType(Many(known), auth).Proceed? {
      var i :| 0 <= i < |known| && Grants(auth, known[i]);
      assert all[i] == known[i];
    }
  }

  /** An unauthenticated request is refused with 401, whatever the roles */
  lemma UnauthenticatedAlways401(arg: RoleArg)
    ensures RequireAuthType(arg, Unauthenticated).Reject?
    ensures RequireAuthType(arg, Unauthenticated).error.httpCode == 401
  {
  }

  /** The curious role admits every identity the credential check produces,
      since those always have the curious flag */
  lemma CuriousAdmitsCuriousPerson(auth: AuthData)
    requires auth.Authenticated? && auth.isCuriousPerson
    ensures RequireAuthType(Single("curious"), auth) == Proceed
  {
    assert Grants(auth, RolesToCheck(Single("curious"))[0]);
  }
}
