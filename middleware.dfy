/**
 * The three request gates that run before the controllers: the role
 * allow-list, the forced password change on first login, and the
 * deactivated-account check that also revokes the token in use.
 */
module Middleware {
  import opened Common
  import opened UserRoleEnum
  import opened UserModel

  /** What a gate does with a request: hand it on, or answer it with an error. */
  datatype Gate =
    | Pass
    | Reject(status: nat, message: string, requiresPasswordChange: bool)

  // ---------------------------------------------------------------------
  // RoleMiddleware

  /**
   * `RoleMiddleware::handle`: 401 without an authenticated user, 403 when
   * the user's role value is not among `roles`, otherwise on to the route.
   */
  function RoleGate(user: Option<Actor>, roles: seq<string>): (g: Gate)
    ensures user.None? <==> g == Reject(401, "Unauthenticated.", false)
    ensures user.Some? && UserRoleEnum.Value(user.value.role) !in roles <==>
      g == Reject(403, "You do not have permission to access this resource.", false)
    ensures g == Pass <==> user.Some? && UserRoleEnum.Value(user.value.role) in roles
  {
    if user.None? then Reject(401, "Unauthenticated.", false)
    else if UserRoleEnum.Value(user.value.role) !in roles then
      Reject(403, "You do not have permission to access this resource.", false)
    else Pass
  }

  /** An empty allow-list lets no authenticated user through. */
  lemma EmptyAllowListRejectsAll(user: Actor)
    ensures RoleGate(Some(user), []).Reject? && RoleGate(Some(user), []).status == 403
  {
  }

  /** A route guarded by `role:admin` admits exactly the admins; by
      `role:admin,operator`, exactly those who may manage incidents. */
  lemma RoleListsMatchRoles(user: Actor)
    ensures RoleGate(Some(user), ["admin"]) == Pass <==> IsAdmin(user.role)
    ensures RoleGate(Some(user), ["admin", "operator"]) == Pass <==> CanManageIncidents(user.role)
  {
    assert UserRoleEnum.Value(Reporter) != "admin" && UserRoleEnum.Value(Reporter) != "operator";
    assert UserRoleEnum.Value(Operator) != "admin";
  }

  // ---------------------------------------------------------------------
  // CheckFirstLogin

  /** The paths a user who still has to change the first password may use. */
  const ExceptRoutes: seq<string> := ["api/auth/first-login-password", "api/auth/logout", "api/auth/me"]

  const PasswordChangeRequired: Gate := Reject(403, "Password change required on first login.", true)

  /** The path starts with one of the excepted routes. */
  predicate Excepted(path: string)
  {
    exists k :: 0 <= k < |ExceptRoutes| && StartsWith(path, ExceptRoutes[k])
  }

  /**
   * `CheckFirstLogin::handle`: a signed-in user whose first password is
   * still in force reaches only the excepted routes; everyone else passes.
   */
  method CheckFirstLogin(user: Option<UserState>, path: string) returns (g: Gate)
    ensures g == Pass <==> user.None? || !user.value.isFirstLogin || Excepted(path)
    ensures g != Pass ==> g == PasswordChangeRequired
  {
    if user.Some? && user.value.isFirstLogin {
      var k := 0;
      while k < |ExceptRoutes|
        invariant 0 <= k <= |ExceptRoutes|
        invariant forall j :: 0 <= j < k ==> !StartsWith(path, ExceptRoutes[j])
      {
        if StartsWith(path, ExceptRoutes[k]) {
          return Pass;
        }
        k := k + 1;
      }
      return PasswordChangeRequired;
    }
    return Pass;
  }

  /** The exception is a prefix match: anything under an excepted route, and
      any path that merely begins with its text, is let through too. */
  lemma ExceptionIsAPrefixMatch()
    ensures Excepted("api/auth/me")
    ensures Excepted("api/auth/me/sessions")
    ensures Excepted("api/auth/meetings")
    ensures !Excepted("api/incidents")
    ensures !Excepted("api/auth/m")
  {
    assert StartsWith("api/auth/me", ExceptRoutes[2]);
    assert StartsWith("api/auth/me/sessions", ExceptRoutes[2]);
    assert StartsWith("api/auth/meetings", ExceptRoutes[2]);
    assert "api/incidents"[4] != ExceptRoutes[1][4] && "api/incidents"[4] != ExceptRoutes[2][4];
  }

  // ---------------------------------------------------------------------
  // EnsureUserIsActive

  /** The `personal_access_tokens` table, by token id. */
  class AccessTokens {
    var ids: set<nat>

    constructor (ids: set<nat>)
      ensures this.ids == ids
    {
      this.ids := ids;
    }

    /** `currentAccessToken()->delete()`. */
    method Revoke(current: nat)
      modifies this
      ensures ids == old(ids) - {current}
    {
      ids := ids - {current};
    }
  }

  const AccountDeactivated: Gate :=
    Reject(403, "Your account has been deactivated. Please contact an administrator.", false)

  /**
   * `EnsureUserIsActive::handle`: a deactivated user's request is refused
   * and the token it came with is revoked; anyone else passes, and no
   * token changes.
   */
  method EnsureUserIsActive(user: Option<UserState>, tokens: AccessTokens, current: nat) returns (g: Gate)
    modifies tokens
    ensures user.Some? && !user.value.isActive ==> g == AccountDeactivated && tokens.ids == old(tokens.ids) - {current}
    ensures user.None? || user.value.isActive ==> g == Pass && tokens.ids == old(tokens.ids)
  {
    if user.Some? && !user.value.isActive {
      tokens.Revoke(current);
      return AccountDeactivated;
    }
    return Pass;
  }
}
