/** `toggleStatus`, the administrator's block/unblock switch for an account. */
module UserController {
  import opened UserModel
  import opened Http

  /** The account after the switch: blocked if it was active, otherwise
      active again with its failed-login counter cleared. */
  function Toggled(s: UserState): (t: UserState)
    ensures t.isActive == !s.isActive
    ensures s.isActive ==> t == s.(isActive := false)
    ensures !s.isActive ==> t == s.(isActive := true, loginAttempts := 0)
  {
    if s.isActive then s.(isActive := false) else s.(isActive := true, loginAttempts := 0)
  }

  /** Switching twice gives back the active flag, but not the counter: it is 0. */
  lemma ToggleTwice(s: UserState)
    ensures Toggled(Toggled(s)).isActive == s.isActive
    ensures Toggled(Toggled(s)).loginAttempts == 0
    ensures Toggled(Toggled(s)) == s.(loginAttempts := 0)
  {
  }

  /**
   * `toggleStatus`: `null` stands for an id that matches no account (404);
   * an administrator may not block themselves (403); otherwise the account
   * is switched.
   */
  method ToggleStatus(actor: Actor, target: User?) returns (r: Reply)
    modifies target
    ensures target == null ==> r == Reply(404, "User not found.")
    ensures target != null && target.id == actor.id ==>
      r == Reply(403, "You cannot block yourself.") && target.State() == old(target.State())
    ensures target != null && target.id != actor.id ==>
      target.State() == Toggled(old(target.State())) &&
      r == Reply(200, if old(target.isActive) then "User blocked successfully." else "User unblocked successfully.")
  {
    if target == null {
      return Reply(404, "User not found.");
    }
    if target.id == actor.id {
      return Reply(403, "You cannot block yourself.");
    }
    if target.isActive {
      target.Block();
      r := Reply(200, "User blocked successfully.");
    } else {
      target.Unblock();
      r := Reply(200, "User unblocked successfully.");
    }
  }
}
