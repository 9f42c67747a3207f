/**
 * User accounts: the role predicates, the login-attempt counter and the
 * block/unblock switch.
 */
module UserModel {
  import opened Common
  import opened UserRoleEnum

  /**
   * A stored password. Hashing is modelled as an injective wrapper: `Check`
   * accepts exactly the plain text that `Make` was given.
   */
  datatype PasswordHash = Hashed(plain: string)

  function HashMake(plain: string): (h: PasswordHash)
    ensures HashCheck(plain, h)
  {
    Hashed(plain)
  }

  predicate HashCheck(plain: string, h: PasswordHash)
  {
    h == Hashed(plain)
  }

  lemma HashCheckOnlyOriginal(a: string, b: string)
    requires HashCheck(a, HashMake(b))
    ensures a == b
  {
  }

  predicate IsAdmin(role: UserRole) { role == Admin }
  predicate IsOperator(role: UserRole) { role == Operator }
  predicate IsReporter(role: UserRole) { role == Reporter }

  /** Operators and admins manage incidents; reporters do not. */
  predicate CanManageIncidents(role: UserRole)
    ensures CanManageIncidents(role) <==> !IsReporter(role)
  {
    IsAdmin(role) || IsOperator(role)
  }

  /** Exactly one of the three role predicates holds. */
  lemma ExactlyOneRole(role: UserRole)
    ensures IsAdmin(role) || IsOperator(role) || IsReporter(role)
    ensures !(IsAdmin(role) && IsOperator(role))
    ensures !(IsAdmin(role) && IsReporter(role))
    ensures !(IsOperator(role) && IsReporter(role))
  {
  }

  /** The authenticated principal as the policies and scopes see it. */
  datatype Actor = Actor(id: nat, role: UserRole)

  /** Every column of a user row, as one value. */
  datatype UserState = UserState(
    id: nat, name: string, email: string, password: PasswordHash, role: UserRole,
    phone: Option<string>, avatar: Option<string>, isActive: bool, isFirstLogin: bool,
    loginAttempts: nat, lastLoginAt: Option<nat>)

  class User {
    var id: nat
    var name: string
    var email: string
    var password: PasswordHash
    var role: UserRole
    var phone: Option<string>
    var avatar: Option<string>
    var isActive: bool
    var isFirstLogin: bool
    var loginAttempts: nat
    var lastLoginAt: Option<nat>

    constructor (s: UserState)
      ensures State() == s
    {
      id, name, email, password, role := s.id, s.name, s.email, s.password, s.role;
      phone, avatar, isActive, isFirstLogin := s.phone, s.avatar, s.isActive, s.isFirstLogin;
      loginAttempts, lastLoginAt := s.loginAttempts, s.lastLoginAt;
    }

    function State(): UserState
      reads this
    {
      UserState(id, name, email, password, role, phone, avatar, isActive, isFirstLogin,
                loginAttempts, lastLoginAt)
    }

    function AsActor(): (a: Actor)
      reads this
      ensures a.id == id && a.role == role
    {
      Actor(id, role)
    }

    predicate IsBlocked()
      reads this
    {
      !isActive
    }

    method IncrementLoginAttempts()
      modifies this
      ensures State() == old(State()).(loginAttempts := old(loginAttempts) + 1)
    {
      loginAttempts := loginAttempts + 1;
    }

    method ResetLoginAttempts()
      modifies this
      ensures State() == old(State()).(loginAttempts := 0)
    {
      loginAttempts := 0;
    }

    /** Deactivates the account; the attempt counter is kept. */
    method Block()
      modifies this
      ensures State() == old(State()).(isActive := false)
      ensures IsBlocked()
    {
      isActive := false;
    }

    /** Reactivates the account and clears the attempt counter. */
    method Unblock()
      modifies this
      ensures State() == old(State()).(isActive := true, loginAttempts := 0)
      ensures !IsBlocked()
    {
      isActive := true;
      loginAttempts := 0;
    }
  }
}
