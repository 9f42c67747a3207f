/**
 * Who may do what to an incident. These predicates stand on their own: the
 * update and status-change paths are gated only by `CanManageIncidents`.
 */
module IncidentPolicy {
  import opened Common
  import opened UserRoleEnum
  import opened UserModel
  import opened IncidentModel

  /** Every authenticated user may list incidents (rows are scoped later). */
  predicate ViewAny(user: Actor) { true }

  /** Admins see all; operators see what is assigned to or reported by them;
      reporters see what they reported. Agrees with `canBeViewedBy`. */
  predicate View(user: Actor, i: Incident)
    ensures View(user, i) <==> CanBeViewedBy(i, user)
  {
    if IsAdmin(user.role) then true
    else if IsOperator(user.role) then i.assignedTo == Some(user.id) || i.reportedBy == user.id
    else i.reportedBy == user.id
  }

  predicate Create(user: Actor)
    ensures Create(user) <==> user.role != Operator
  {
    IsReporter(user.role) || IsAdmin(user.role)
  }

  /** Admins, or the operator the incident is assigned to; never a reporter. */
  predicate Update(user: Actor, i: Incident)
    ensures Update(user, i) ==> CanManageIncidents(user.role)
    ensures Update(user, i) <==> user.role == Admin || (user.role == Operator && i.assignedTo == Some(user.id))
  {
    if !CanManageIncidents(user.role) then false
    else if IsAdmin(user.role) then true
    else i.assignedTo == Some(user.id)
  }

  predicate Delete(user: Actor, i: Incident) { IsAdmin(user.role) }

  predicate UpdateStatus(user: Actor, i: Incident)
    ensures UpdateStatus(user, i) <==> Update(user, i)
  {
    if !CanManageIncidents(user.role) then false
    else if IsAdmin(user.role) then true
    else i.assignedTo == Some(user.id)
  }

  predicate Assign(user: Actor, i: Incident) { IsAdmin(user.role) }

  predicate AddComment(user: Actor, i: Incident) { View(user, i) }

  predicate AddInternalNote(user: Actor, i: Incident)
    ensures AddInternalNote(user, i) ==> AddComment(user, i) && !IsReporter(user.role)
  {
    CanManageIncidents(user.role) && View(user, i)
  }

  predicate UploadAttachment(user: Actor, i: Incident) { View(user, i) }

  predicate Export(user: Actor) { true }

  /** The view rule, role by role. */
  lemma ViewByRole(user: Actor, i: Incident)
    ensures user.role == Admin ==> View(user, i)
    ensures user.role == Operator ==> (View(user, i) <==> i.assignedTo == Some(user.id) || i.reportedBy == user.id)
    ensures user.role == Reporter ==> (View(user, i) <==> i.reportedBy == user.id)
  {
  }

  /** A reporter can never update, not even an incident they reported. */
  lemma ReporterNeverUpdates(user: Actor, i: Incident)
    requires user.role == Reporter
    ensures !Update(user, i) && !UpdateStatus(user, i)
  {
  }

  lemma DeleteAndAssignAdminOnly(user: Actor, i: Incident)
    ensures Delete(user, i) <==> user.role == Admin
    ensures Assign(user, i) <==> user.role == Admin
  {
  }

  lemma CommentAndUploadFollowView(user: Actor, i: Incident)
    ensures AddComment(user, i) == View(user, i) == UploadAttachment(user, i)
  {
  }

  lemma AlwaysAllowed(user: Actor)
    ensures ViewAny(user) && Export(user)
  {
  }
}

/** Who may manage user accounts: admins, but never against themselves for
    deleting, resetting passwords or changing roles. */
module UserPolicy {
  import opened UserRoleEnum
  import opened UserModel

  predicate ViewAny(user: Actor) { IsAdmin(user.role) }

  predicate View(user: Actor, targetId: nat)
    ensures View(user, targetId) <==> user.role == Admin || user.id == targetId
  {
    if IsAdmin(user.role) then true else user.id == targetId
  }

  predicate Create(user: Actor) { IsAdmin(user.role) }

  predicate Update(user: Actor, targetId: nat)
    ensures Update(user, targetId) <==> user.role == Admin || user.id == targetId
  {
    if IsAdmin(user.role) then true else user.id == targetId
  }

  predicate Delete(user: Actor, targetId: nat)
    ensures Delete(user, targetId) <==> user.role == Admin && user.id != targetId
  {
    if !IsAdmin(user.role) then false else user.id != targetId
  }

  predicate ResetPassword(user: Actor, targetId: nat)
    ensures ResetPassword(user, targetId) <==> user.role == Admin && user.id != targetId
  {
    if !IsAdmin(user.role) then false else user.id != targetId
  }

  predicate ChangeRole(user: Actor, targetId: nat)
    ensures ChangeRole(user, targetId) <==> user.role == Admin && user.id != targetId
  {
    if !IsAdmin(user.role) then false else user.id != targetId
  }

  predicate Export(user: Actor) { IsAdmin(user.role) }

  predicate ViewOperators(user: Actor) { IsAdmin(user.role) }

  lemma AdminOnlyActions(user: Actor)
    ensures ViewAny(user) <==> user.role == Admin
    ensures Create(user) <==> user.role == Admin
    ensures Export(user) <==> user.role == Admin
    ensures ViewOperators(user) <==> user.role == Admin
  {
  }

  /** Nobody can delete, reset the password of, or change the role of their own account. */
  lemma NoSelfDestructiveActions(user: Actor)
    ensures !Delete(user, user.id) && !ResetPassword(user, user.id) && !ChangeRole(user, user.id)
  {
  }
}
