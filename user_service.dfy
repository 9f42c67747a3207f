/**
 * Administration of user accounts: creation with a generated first
 * password, partial updates, hard deletion, password resets and the
 * head counts shown on the dashboard.
 */
module UserService {
  import opened Common
  import opened UserRoleEnum
  import opened UserModel
  import opened Events
  import AuthService

  /** The validated request of `create`; absent optional keys are `None`. */
  datatype NewUserData = NewUserData(name: string, email: string, role: UserRole, phone: Option<string>, isActive: Option<bool>)

  /** The validated request of `update`; `None` is a key absent or null. */
  datatype UserUpdateData = UserUpdateData(
    name: Option<string>, email: Option<string>, role: Option<UserRole>,
    phone: Option<string>, isActive: Option<bool>, avatar: Option<string>)

  /** The row `create` stores: a hashed first password, a forced password
      change, active unless said otherwise, and no phone unless given. */
  function NewUserState(id: nat, data: NewUserData, password: string): (s: UserState)
    ensures s.id == id && s.name == data.name && s.email == data.email && s.role == data.role
    ensures HashCheck(password, s.password)
    ensures s.isFirstLogin && s.loginAttempts == 0 && s.lastLoginAt == None && s.avatar == None
    ensures s.isActive == (data.isActive.None? || data.isActive.value)
    ensures s.phone == data.phone
  {
    UserState(id, data.name, data.email, HashMake(password), data.role, data.phone, None,
              data.isActive.GetOr(true), true, 0, None)
  }

  /** The row after `update`: each given column replaced, nothing else. */
  function UserUpdated(s: UserState, d: UserUpdateData): (t: UserState)
    ensures t.id == s.id && t.password == s.password && t.isFirstLogin == s.isFirstLogin
    ensures t.loginAttempts == s.loginAttempts && t.lastLoginAt == s.lastLoginAt
    ensures d.name.None? ==> t.name == s.name
    ensures d.name.Some? ==> t.name == d.name.value
    ensures d.email.None? ==> t.email == s.email
    ensures d.email.Some? ==> t.email == d.email.value
    ensures d.role.None? ==> t.role == s.role
    ensures d.role.Some? ==> t.role == d.role.value
    ensures d.isActive.None? ==> t.isActive == s.isActive
    ensures d.isActive.Some? ==> t.isActive == d.isActive.value
    ensures t.phone == if d.phone.Some? then d.phone else s.phone
    ensures t.avatar == if d.avatar.Some? then d.avatar else s.avatar
  {
    s.(name := d.name.GetOr(s.name), email := d.email.GetOr(s.email), role := d.role.GetOr(s.role),
       phone := if d.phone.Some? then d.phone else s.phone,
       isActive := d.isActive.GetOr(s.isActive),
       avatar := if d.avatar.Some? then d.avatar else s.avatar)
  }

  /**
   * `update` with `is_active` set re-activates a blocked account but keeps
   * its failed-attempt counter, so the next wrong password blocks it again
   * at once, with no warning; only `unblock` clears the counter.
   */
  lemma ReactivationKeepsStrikes(s: UserState, wrong: string, now: nat)
    requires !s.isActive && s.loginAttempts == AuthService.MaxLoginAttempts && !HashCheck(wrong, s.password)
    ensures var t := UserUpdated(s, UserUpdateData(None, None, None, None, Some(true), None));
      t.isActive && t.loginAttempts == AuthService.MaxLoginAttempts &&
      AuthService.LoginStep(t, wrong, now).0 == AuthService.AccountBlocked
  {
  }

  datatype UserStatistics = UserStatistics(total: nat, active: nat, inactive: nat, admins: nat, operators: nat, reporters: nat)

  predicate IsActiveUser(s: UserState) { s.isActive }
  predicate IsInactiveUser(s: UserState) { !s.isActive }
  predicate IsAdminUser(s: UserState) { s.role == Admin }
  predicate IsOperatorUser(s: UserState) { s.role == Operator }
  predicate IsReporterUser(s: UserState) { s.role == Reporter }

  /** `getStatistics`: head counts over all accounts, each the number of
      accounts in its group; the groups partition the accounts. */
  function Statistics(users: seq<UserState>): (r: UserStatistics)
    ensures r.total == |users|
    ensures r.active == Count(users, IsActiveUser) && r.inactive == Count(users, IsInactiveUser)
    ensures r.admins == Count(users, IsAdminUser) && r.operators == Count(users, IsOperatorUser)
    ensures r.reporters == Count(users, IsReporterUser)
    ensures r.active + r.inactive == r.total
    ensures r.admins + r.operators + r.reporters == r.total
  {
    ActivePartition(users);
    RolesPartition(users);
    FilterLength(users, IsActiveUser);
    FilterLength(users, IsInactiveUser);
    FilterLength(users, IsAdminUser);
    FilterLength(users, IsOperatorUser);
    FilterLength(users, IsReporterUser);
    UserStatistics(|users|,
      |Filter(users, IsActiveUser)|, |Filter(users, IsInactiveUser)|,
      |Filter(users, IsAdminUser)|, |Filter(users, IsOperatorUser)|, |Filter(users, IsReporterUser)|)
  }

  lemma {:induction false} ActivePartition(users: seq<UserState>)
    ensures |Filter(users, IsActiveUser)| + |Filter(users, IsInactiveUser)| == |users|
  {
    if users != [] {
      ActivePartition(users[1..]);
    }
  }

  lemma {:induction false} RolesPartition(users: seq<UserState>)
    ensures |Filter(users, IsAdminUser)| + |Filter(users, IsOperatorUser)| + |Filter(users, IsReporterUser)| == |users|
  {
    if users != [] {
      RolesPartition(users[1..]);
    }
  }

  class UserService {
    /** The accounts, in insertion order. */
    var users: seq<User>
    /** The auto-increment counter of the `id` column. */
    var nextId: nat
    /** The events dispatched so far. */
    var events: seq<Event>

    constructor ()
      ensures users == [] && nextId == 1 && events == []
    {
      users := [];
      nextId := 1;
      events := [];
    }

    /** The rows of all accounts. */
    function States(): (r: seq<UserState>)
      reads this, users
      ensures |r| == |users|
      ensures forall k :: 0 <= k < |users| ==> r[k] == users[k].State()
    {
      seq(|users|, k reads this, users requires 0 <= k < |users| => users[k].State())
    }

    /**
     * `create`: stores a new account whose password is `password` (the
     * generated one) and raises `UserCreated` with that same password.
     */
    method Create(data: NewUserData, password: string) returns (u: User)
      modifies this
      ensures fresh(u)
      ensures u.State() == NewUserState(old(nextId), data, password)
      ensures users == old(users) + [u] && nextId == old(nextId) + 1
      ensures events == old(events) + [UserCreated(u.id, password)]
      ensures HashCheck(password, u.password)
    {
      u := new User(NewUserState(nextId, data, password));
      users := users + [u];
      nextId := nextId + 1;
      events := events + [UserCreated(u.id, password)];
    }

    /** `update`: writes only the columns given. */
    method Update(u: User, data: UserUpdateData)
      modifies u
      ensures u.State() == UserUpdated(old(u.State()), data)
    {
      u.name, u.email, u.role := data.name.GetOr(u.name), data.email.GetOr(u.email), data.role.GetOr(u.role);
      u.phone := if data.phone.Some? then data.phone else u.phone;
      u.isActive := data.isActive.GetOr(u.isActive);
      u.avatar := if data.avatar.Some? then data.avatar else u.avatar;
    }

    /** `delete`: the account at index `k` is removed for good, not deactivated. */
    method Delete(k: nat)
      requires k < |users|
      modifies this
      ensures users == old(users)[..k] + old(users)[k + 1..]
      ensures old(users)[k] !in users || exists j :: 0 <= j < |old(users)| && j != k && old(users)[j] == old(users)[k]
      ensures nextId == old(nextId) && events == old(events)
    {
      users := users[..k] + users[k + 1..];
    }

    /** `resetPassword`: stores `password` (the generated one), forces a
        change at next login, and mails it through `UserCreated`. */
    method ResetPassword(u: User, password: string) returns (p: string)
      modifies this, u
      ensures p == password
      ensures u.State() == old(u.State()).(password := HashMake(password), isFirstLogin := true)
      ensures users == old(users) && nextId == old(nextId)
      ensures events == old(events) + [UserCreated(u.id, password)]
    {
      u.password := HashMake(password);
      u.isFirstLogin := true;
      events := events + [UserCreated(u.id, password)];
      p := password;
    }
  }
}
