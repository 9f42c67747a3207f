/**
 * Entries of an incident's activity log: their readable description and the
 * public/internal visibility scopes.
 */
module IncidentUpdateModel {
  import opened Common
  import opened ActionTypeEnum
  import UserRoleEnum
  import UserModel

  /** One row of `incident_updates`; `createdAt` is a timestamp in seconds. */
  datatype IncidentUpdate = IncidentUpdate(
    id: nat,
    incidentId: nat,
    userId: nat,
    actionType: ActionType,
    previousValue: Option<string>,
    newValue: Option<string>,
    comment: Option<string>,
    isInternal: bool,
    createdAt: nat)

  /** The author's name, or "Someone" when the author or the name is missing. */
  function AuthorName(userName: Option<string>): (r: string)
    ensures userName.None? ==> r == "Someone"
    ensures userName.Some? ==> r == userName.value
  {
    userName.GetOr("Someone")
  }

  /** The human-readable line shown in the activity timeline. */
  function Description(u: IncidentUpdate, userName: Option<string>): (r: string)
    ensures StartsWith(r, AuthorName(userName) + " ")
  {
    var n := AuthorName(userName);
    var tail := match u.actionType
      case StatusChange => " changed status from " + Str(u.previousValue) + " to " + Str(u.newValue)
      case Comment => " added a comment"
      case Assignment =>
        if PhpTruthy(u.newValue) then " assigned to " + Str(u.newValue)
        else " removed assignment"
      case PriorityChange => " changed priority from " + Str(u.previousValue) + " to " + Str(u.newValue)
      case SeverityChange => " changed severity from " + Str(u.previousValue) + " to " + Str(u.newValue)
      case Edit => " edited the incident";
    NameThenSpace(n, tail);
    n + tail
  }

  /** A text that opens with a space, after a name, starts with the name and a space. */
  lemma NameThenSpace(n: string, tail: string)
    requires tail != [] && tail[0] == ' '
    ensures StartsWith(n + tail, n + " ")
  {
    assert (n + tail)[..|n| + 1] == n + " ";
  }

  lemma StatusChangeText(u: IncidentUpdate, name: string, prev: string, next: string)
    requires u.actionType == StatusChange && u.previousValue == Some(prev) && u.newValue == Some(next)
    ensures Description(u, Some(name)) == name + " changed status from " + prev + " to " + next
  {
  }

  /** An assignment names the new assignee, or says the assignment was removed. */
  lemma AssignmentText(u: IncidentUpdate, name: string)
    requires u.actionType == Assignment
    ensures u.newValue.None? ==> Description(u, Some(name)) == name + " removed assignment"
    ensures PhpTruthy(u.newValue) ==> Description(u, Some(name)) == name + " assigned to " + u.newValue.value
  {
  }

  lemma FixedTemplates(u: IncidentUpdate, name: string)
    ensures u.actionType == Comment ==> Description(u, Some(name)) == name + " added a comment"
    ensures u.actionType == Edit ==> Description(u, Some(name)) == name + " edited the incident"
    ensures u.actionType == PriorityChange ==>
              Description(u, Some(name)) == name + " changed priority from " + Str(u.previousValue) + " to " + Str(u.newValue)
    ensures u.actionType == SeverityChange ==>
              Description(u, Some(name)) == name + " changed severity from " + Str(u.previousValue) + " to " + Str(u.newValue)
  {
  }

  predicate IsComment(u: IncidentUpdate) { u.actionType == Comment }
  predicate IsStatusChange(u: IncidentUpdate) { u.actionType == StatusChange }

  /** The `Public` scope. */
  function PublicOnly(us: seq<IncidentUpdate>): (r: seq<IncidentUpdate>)
    ensures forall u :: u in r <==> u in us && !u.isInternal
  {
    Filter(us, (u: IncidentUpdate) => !u.isInternal)
  }

  /** The `Internal` scope. */
  function InternalOnly(us: seq<IncidentUpdate>): (r: seq<IncidentUpdate>)
    ensures forall u :: u in r <==> u in us && u.isInternal
  {
    Filter(us, (u: IncidentUpdate) => u.isInternal)
  }

  /** Every update is in exactly one of the two scopes. */
  lemma PublicInternalPartition(us: seq<IncidentUpdate>)
    ensures multiset(PublicOnly(us)) + multiset(InternalOnly(us)) == multiset(us)
    ensures |PublicOnly(us)| + |InternalOnly(us)| == |us|
  {
    var p, q := PublicOnly(us), InternalOnly(us);
    assert forall u :: (multiset(p) + multiset(q))[u] == multiset(us)[u];
    assert multiset(p) + multiset(q) == multiset(us);
    assert |multiset(p) + multiset(q)| == |multiset(us)|;
  }

  /** The `VisibleTo` scope: managers see every update, others only public ones. */
  function VisibleTo(us: seq<IncidentUpdate>, role: UserRoleEnum.UserRole): (r: seq<IncidentUpdate>)
    ensures UserModel.CanManageIncidents(role) ==> r == us
    ensures !UserModel.CanManageIncidents(role) ==> forall u :: u in r <==> u in us && !u.isInternal
  {
    if UserModel.CanManageIncidents(role) then us else PublicOnly(us)
  }
}
