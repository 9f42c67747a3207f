/**
 * Signing in with the three-strikes lockout, password changes and profile
 * edits. The lookup by e-mail is done by the caller: a missing account is
 * passed as `null`.
 */
module AuthService {
  import opened Common
  import opened UserModel

  /** The number of wrong passwords that blocks an account. */
  const MaxLoginAttempts: nat := 3

  datatype LoginOutcome =
    | InvalidCredentials
    | AccountBlocked
    | WrongPassword(attemptsLeft: int)
    | LoggedIn(requiresPasswordChange: bool)

  /**
   * `login` on an existing account: a blocked account is refused before the
   * password is looked at; a wrong password counts an attempt and blocks the
   * account at the third; a right one clears the counter and records the time.
   */
  function LoginStep(s: UserState, password: string, now: nat): (r: (LoginOutcome, UserState))
    ensures !s.isActive ==> r == (AccountBlocked, s)
    ensures s.isActive && !HashCheck(password, s.password) && s.loginAttempts + 1 >= MaxLoginAttempts ==>
      r == (AccountBlocked, s.(loginAttempts := s.loginAttempts + 1, isActive := false))
    ensures s.isActive && !HashCheck(password, s.password) && s.loginAttempts + 1 < MaxLoginAttempts ==>
      r == (WrongPassword(MaxLoginAttempts - (s.loginAttempts + 1)), s.(loginAttempts := s.loginAttempts + 1))
    ensures s.isActive && HashCheck(password, s.password) ==>
      r == (LoggedIn(s.isFirstLogin), s.(loginAttempts := 0, lastLoginAt := Some(now)))
  {
    if !s.isActive then (AccountBlocked, s)
    else if !HashCheck(password, s.password) then
      var t := s.(loginAttempts := s.loginAttempts + 1);
      if t.loginAttempts >= MaxLoginAttempts then (AccountBlocked, t.(isActive := false))
      else (WrongPassword(MaxLoginAttempts - t.loginAttempts), t)
    else (LoggedIn(s.isFirstLogin), s.(loginAttempts := 0, lastLoginAt := Some(now)))
  }

  /** Signing in preserves "an active account has fewer than three failed
      attempts": if it held before a login, it holds after. Other writers of
      the columns can break it (see `UserService.ReactivationKeepsStrikes`). */
  lemma LoginKeepsCounterBelowLimit(s: UserState, password: string, now: nat)
    requires s.isActive ==> s.loginAttempts < MaxLoginAttempts
    ensures var t := LoginStep(s, password, now).1;
      t.isActive ==> t.loginAttempts < MaxLoginAttempts
  {
  }

  /** Nothing but the counter, the active flag and the login time ever changes. */
  lemma LoginTouchesOnlyLockoutColumns(s: UserState, password: string, now: nat)
    ensures var t := LoginStep(s, password, now).1;
      t == s.(loginAttempts := t.loginAttempts, isActive := t.isActive, lastLoginAt := t.lastLoginAt)
    ensures LoginStep(s, password, now).1.isActive ==> s.isActive
  {
  }

  /** Three wrong passwords in a row on a fresh active account block it,
      even when the right password is tried afterwards. */
  lemma ThreeStrikes(s: UserState, wrong: string, right: string, now: nat)
    requires s.isActive && s.loginAttempts == 0 && !HashCheck(wrong, s.password) && HashCheck(right, s.password)
    ensures var (o1, s1) := LoginStep(s, wrong, now);
            var (o2, s2) := LoginStep(s1, wrong, now);
            var (o3, s3) := LoginStep(s2, wrong, now);
            o1 == WrongPassword(2) && o2 == WrongPassword(1) && o3 == AccountBlocked && !s3.isActive &&
            LoginStep(s3, right, now) == (AccountBlocked, s3)
  {
    var (o1, s1) := LoginStep(s, wrong, now);
    assert s1 == s.(loginAttempts := 1);
    var (o2, s2) := LoginStep(s1, wrong, now);
    assert s2 == s.(loginAttempts := 2);
    var (o3, s3) := LoginStep(s2, wrong, now);
    assert s3 == s.(loginAttempts := 3, isActive := false);
  }

  /** `login`: `null` stands for an e-mail that matches no account. */
  method Login(user: User?, password: string, now: nat) returns (r: LoginOutcome)
    modifies user
    ensures user == null ==> r == InvalidCredentials
    ensures user != null ==> (r, user.State()) == LoginStep(old(user.State()), password, now)
  {
    if user == null {
      return InvalidCredentials;
    }
    if user.IsBlocked() {
      return AccountBlocked;
    }
    if !HashCheck(password, user.password) {
      user.IncrementLoginAttempts();
      var attemptsLeft := MaxLoginAttempts - user.loginAttempts;
      if user.loginAttempts >= MaxLoginAttempts {
        user.Block();
        return AccountBlocked;
      }
      return WrongPassword(attemptsLeft);
    }
    user.ResetLoginAttempts();
    user.lastLoginAt := Some(now);
    r := LoggedIn(user.isFirstLogin);
  }

  datatype PasswordError = CurrentPasswordIncorrect | ChangeNotRequired

  /** `changePassword`: needs the current password; clears the first-login flag. */
  method ChangePassword(user: User, currentPassword: string, newPassword: string) returns (r: Result<(), PasswordError>)
    modifies user
    ensures !HashCheck(currentPassword, old(user.password)) <==> r == Err(CurrentPasswordIncorrect)
    ensures r.Ok? <==> HashCheck(currentPassword, old(user.password))
    ensures r.Err? ==> user.State() == old(user.State())
    ensures r.Ok? ==> user.State() == old(user.State()).(password := HashMake(newPassword), isFirstLogin := false)
    ensures r.Ok? ==> HashCheck(newPassword, user.password)
  {
    if !HashCheck(currentPassword, user.password) {
      return Err(CurrentPasswordIncorrect);
    }
    user.password := HashMake(newPassword);
    user.isFirstLogin := false;
    r := Ok(());
  }

  /** `firstLoginPasswordChange`: only while the first-login flag is set. */
  method FirstLoginPasswordChange(user: User, newPassword: string) returns (r: Result<(), PasswordError>)
    modifies user
    ensures r.Err? <==> !old(user.isFirstLogin)
    ensures r.Err? ==> r.error == ChangeNotRequired && user.State() == old(user.State())
    ensures r.Ok? ==> user.State() == old(user.State()).(password := HashMake(newPassword), isFirstLogin := false)
  {
    if !user.isFirstLogin {
      return Err(ChangeNotRequired);
    }
    user.password := HashMake(newPassword);
    user.isFirstLogin := false;
    r := Ok(());
  }

  /** The request of `updateProfile`; `None` is a key absent or null. */
  datatype ProfileData = ProfileData(name: Option<string>, phone: Option<string>, avatar: Option<string>)

  /** The profile after `updateProfile`: each given column replaced, nothing else. */
  function ProfileUpdated(s: UserState, data: ProfileData): (t: UserState)
    ensures t.(name := s.name, phone := s.phone, avatar := s.avatar) == s
    ensures t.email == s.email && t.role == s.role && t.isActive == s.isActive
    ensures t.name == (if data.name.Some? then data.name.value else s.name)
    ensures data.phone.Some? ==> t.phone == data.phone
    ensures data.phone.None? ==> t.phone == s.phone
    ensures data.avatar.Some? ==> t.avatar == data.avatar
    ensures data.avatar.None? ==> t.avatar == s.avatar
  {
    s.(name := data.name.GetOr(s.name),
       phone := if data.phone.Some? then data.phone else s.phone,
       avatar := if data.avatar.Some? then data.avatar else s.avatar)
  }

  /** `updateProfile`: writes only the columns given; the e-mail never changes. */
  method UpdateProfile(user: User, data: ProfileData)
    modifies user
    ensures user.State() == ProfileUpdated(old(user.State()), data)
  {
    if data.name.Some? {
      user.name := data.name.value;
    }
    if data.phone.Some? {
      user.phone := data.phone;
    }
    if data.avatar.Some? {
      user.avatar := data.avatar;
    }
  }

  datatype ResetLinkError = ResetLinkError(status: string)

  /**
   * `sendPasswordResetLink`: silent success for an unknown e-mail; otherwise
   * the broker's status decides. `brokerStatus` is what the broker returned.
   */
  function SendPasswordResetLink(userExists: bool, brokerStatus: string): (r: Result<(), ResetLinkError>)
    ensures !userExists ==> r.Ok?
    ensures userExists ==> (r.Ok? <==> brokerStatus == ResetLinkSent)
  {
    if !userExists then Ok(())
    else if brokerStatus == ResetLinkSent then Ok(())
    else Err(ResetLinkError(brokerStatus))
  }

  /** The broker's status for a link that was sent. */
  const ResetLinkSent: string := "passwords.sent"
}
