/**
 * The decisions of the incident endpoints: which status code a request
 * gets and in which order the checks run (lookup, visibility, role,
 * transition), and what the successful actions hand to the services.
 * A `{incident}` route parameter is an id looked up in the table.
 */
module IncidentController {
  import opened Common
  import opened IncidentStatusEnum
  import opened UserRoleEnum
  import opened UserModel
  import opened IncidentModel
  import opened ActionTypeEnum
  import opened IncidentUpdateModel
  import opened IncidentRepository
  import opened IncidentUpdateRepository
  import opened IncidentStatusService
  import opened IncidentService
  import opened Http
  import opened Events

  const IncidentNotFound: Reply := Reply(404, "Incident not found.")

  /**
   * The lookup and the visibility check that open `show`, `updates` and
   * `addComment`: 404 for an unknown id comes first, then 403 with the
   * action's own message when the user may not view the incident.
   */
  function FindViewable(rows: seq<Incident>, id: nat, user: Actor, forbidden: string): (r: Result<nat, Reply>)
    ensures r.Ok? ==> r.value < |rows| && rows[r.value].id == id && CanBeViewedBy(rows[r.value], user)
    ensures r == Err(IncidentNotFound) <==> forall k :: 0 <= k < |rows| ==> rows[k].id != id
    ensures r == Err(Reply(403, forbidden)) <==>
      IndexOfId(rows, id).Some? && !CanBeViewedBy(rows[IndexOfId(rows, id).value], user)
    ensures IndexOfId(rows, id).Some? && CanBeViewedBy(rows[IndexOfId(rows, id).value], user) ==>
      r == Ok(IndexOfId(rows, id).value)
  {
    match IndexOfId(rows, id)
    case None => Err(IncidentNotFound)
    case Some(k) => if !CanBeViewedBy(rows[k], user) then Err(Reply(403, forbidden)) else Ok(k)
  }

  const CannotView: string := "You do not have permission to view this incident."
  const CannotComment: string := "You do not have permission to comment on this incident."

  /** `show`: the incident, for those who may view it. */
  function Show(rows: seq<Incident>, id: nat, user: Actor): (r: Result<Incident, Reply>)
    ensures r.Ok? ==> r.value in rows && r.value.id == id && CanBeViewedBy(r.value, user)
    ensures r.Err? ==> r.error == IncidentNotFound || r.error == Reply(403, CannotView)
    ensures IndexOfId(rows, id).Some? && CanBeViewedBy(rows[IndexOfId(rows, id).value], user) ==>
      r == Ok(rows[IndexOfId(rows, id).value])
    ensures r == Err(Reply(403, CannotView)) <==>
      IndexOfId(rows, id).Some? && !CanBeViewedBy(rows[IndexOfId(rows, id).value], user)
  {
    match FindViewable(rows, id, user, CannotView)
    case Err(e) => Err(e)
    case Ok(k) => Ok(rows[k])
  }

  /** A 403 tells the caller the incident exists: only a missing id gives 404. */
  lemma ForbiddenRevealsExistence(rows: seq<Incident>, id: nat, user: Actor)
    ensures Show(rows, id, user) == Err(IncidentNotFound) <==> forall i :: i in rows ==> i.id != id
    ensures Show(rows, id, user) == Err(Reply(403, CannotView)) ==> exists i :: i in rows && i.id == id
  {
    if Show(rows, id, user) == Err(Reply(403, CannotView)) {
      var k := IndexOfId(rows, id).value;
      assert rows[k] in rows;
    }
  }

  /** `updates`: the incident's log as the viewer may see it, newest first. */
  function Updates(rows: seq<Incident>, entries: seq<IncidentUpdate>, id: nat, user: Actor)
    : (r: Result<seq<IncidentUpdate>, Reply>)
    ensures r.Err? <==> FindViewable(rows, id, user, CannotView).Err?
    ensures r.Ok? ==> forall u :: u in r.value <==>
      u in entries && u.incidentId == id && (CanManageIncidents(user.role) || !u.isInternal)
    ensures r.Ok? ==> r.value == GetForIncident(entries, id, Some(user.role))
    ensures r.Ok? ==> SortedDesc(r.value, NewestFirst)
    ensures r.Ok? ==> multiset(r.value) == multiset(Filter(entries, u => ShownTo(u, id, Some(user.role))))
  {
    match FindViewable(rows, id, user, CannotView)
    case Err(e) => Err(e)
    case Ok(k) => Ok(GetForIncident(entries, rows[k].id, Some(user.role)))
  }

  /** `validTransitions` looks the incident up but checks no visibility. */
  function ValidTransitionsReply(rows: seq<Incident>, id: nat): (r: Result<(string, seq<(string, string)>), Reply>)
    ensures r.Err? <==> r == Err(IncidentNotFound)
    ensures r.Err? <==> forall k :: 0 <= k < |rows| ==> rows[k].id != id
    ensures r.Ok? ==> IncidentStatusEnum.FromValue(r.value.0).Some?
    ensures r.Ok? ==> forall t ::
      CanTransition(rows[IndexOfId(rows, id).value], t) <==> exists k :: 0 <= k < |r.value.1| && r.value.1[k].0 == t
  {
    match IndexOfId(rows, id)
    case None => Err(IncidentNotFound)
    case Some(k) =>
      var i := rows[k];
      ValueRoundTrip(i.status);
      forall t
        ensures CanTransition(i, t) <==> exists j :: 0 <= j < |GetValidTransitions(i)| && GetValidTransitions(i)[j].0 == t
      {
        OfferedIffAllowed(i, t);
      }
      Ok((IncidentStatusEnum.Value(i.status), GetValidTransitions(i)))
  }

  /** `addComment`: an internal note is asked for with `is_internal`, and
      quietly becomes public when the author may not manage incidents. */
  function EffectiveInternal(requested: Option<bool>, role: UserRole): (r: bool)
    ensures r <==> requested == Some(true) && CanManageIncidents(role)
  {
    var isInternal := requested.GetOr(false);
    if isInternal && !CanManageIncidents(role) then false else isInternal
  }

  /** The downgrade is never an error: every role gets the same success reply. */
  lemma ReportersNeverWriteInternalNotes(requested: Option<bool>)
    ensures !EffectiveInternal(requested, Reporter)
    ensures EffectiveInternal(requested, Operator) == EffectiveInternal(requested, Admin)
  {
  }

  const StatusValuesMessage: string := "Invalid status. Must be one of: open, investigating, resolved, closed"

  /** The message of `InvalidStatusTransitionException` for each refusal. */
  function TransitionMessage(e: StatusError): string
  {
    match e
    case IllegalTransition(from, to) =>
      "Cannot transition from '" + IncidentStatusEnum.Value(from) + "' to '" + IncidentStatusEnum.Value(to) + "'"
    case NotesRequired => "Resolution notes are required when resolving an incident."
    case UnknownStatus(_) => StatusValuesMessage
  }

  /**
   * `updateStatus`: the form request refuses non-managers (403) and unknown
   * status values (422) before the action runs; then an unknown id is 404;
   * a transition the service refuses is 422 and writes nothing.
   */
  method UpdateStatus(service: IncidentStatusService, user: Actor, id: nat, target: string, notes: Option<string>, now: nat)
    returns (r: Reply)
    requires service.Valid()
    modifies service, service.incidents, service.updates
    ensures service.Valid()
    ensures !CanManageIncidents(user.role) ==> r == Unauthorized
    ensures CanManageIncidents(user.role) && IncidentStatusEnum.FromValue(target).None? ==> r == Reply(422, StatusValuesMessage)
    ensures r.status != 200 ==>
      service.incidents.rows == old(service.incidents.rows) &&
      service.updates.entries == old(service.updates.entries) && service.events == old(service.events)
    ensures CanManageIncidents(user.role) && IncidentStatusEnum.FromValue(target).Some? ==>
      match IndexOfId(old(service.incidents.rows), id)
      case None => r == IncidentNotFound
      case Some(k) =>
        var check := CheckStatusUpdate(old(service.incidents.rows[k]), target, notes);
        (check.Err? ==> r == Reply(422, TransitionMessage(check.error))) &&
        (check.Ok? ==>
           var before := old(service.incidents.rows[k]);
           r == Reply(200, "Status updated successfully.") &&
           service.incidents.rows == old(service.incidents.rows)[k := Saved(before, WithStatus(before, check.value, notes, now), now)] &&
           service.updates.entries == old(service.updates.entries) +
             [IncidentUpdate(old(service.updates.nextId), before.id, user.id, StatusChange,
                             Some(IncidentStatusEnum.Value(before.status)), Some(target), notes, false, now)] &&
           service.events == old(service.events) + [IncidentStatusChanged(before.id, before.status, check.value, user.id)])
  {
    if !CanManageIncidents(user.role) {
      return Unauthorized;
    }
    if IncidentStatusEnum.FromValue(target).None? {
      return Reply(422, StatusValuesMessage);
    }
    var found := IndexOfId(service.incidents.rows, id);
    if found.None? {
      return IncidentNotFound;
    }
    var result := service.UpdateStatus(found.value, target, user, notes, now);
    if result.Err? {
      return Reply(422, TransitionMessage(result.error));
    }
    r := Reply(200, "Status updated successfully.");
  }

  /**
   * `destroy`: the admin check comes before the lookup, so a non-admin is
   * told 403 even about an id that does not exist.
   */
  method Destroy(service: IncidentService, user: Actor, id: nat) returns (r: Reply)
    requires service.Valid()
    modifies service.incidents, service.updates
    ensures service.Valid()
    ensures !IsAdmin(user.role) ==> r == Reply(403, "Only administrators can delete incidents.")
    ensures IsAdmin(user.role) && IndexOfId(old(service.incidents.rows), id).None? ==> r == IncidentNotFound
    ensures r.status != 200 ==>
      service.incidents.rows == old(service.incidents.rows) && service.updates.entries == old(service.updates.entries)
    ensures IsAdmin(user.role) && IndexOfId(old(service.incidents.rows), id).Some? ==>
      var k := IndexOfId(old(service.incidents.rows), id).value;
      r == Reply(200, "Incident deleted successfully.") &&
      service.incidents.rows == old(service.incidents.rows)[..k] + old(service.incidents.rows)[k + 1..] &&
      service.updates.entries == Filter(old(service.updates.entries), (u: IncidentUpdate) => u.incidentId != id)
  {
    if !IsAdmin(user.role) {
      return Reply(403, "Only administrators can delete incidents.");
    }
    var found := IndexOfId(service.incidents.rows, id);
    if found.None? {
      return IncidentNotFound;
    }
    service.Delete(found.value);
    r := Reply(200, "Incident deleted successfully.");
  }

  /** The reply of `assign`: "assigned" for a truthy operator id, "unassigned" otherwise. */
  function AssignMessage(operatorId: Option<nat>): (m: string)
    ensures m == "Incident assigned successfully." <==> operatorId.Some? && operatorId.value != 0
    ensures m == "Incident unassigned successfully." <==> !(operatorId.Some? && operatorId.value != 0)
  {
    if operatorId.Some? && operatorId.value != 0 then "Incident assigned successfully."
    else "Incident unassigned successfully."
  }

  /**
   * `assign`: admins only (403), an operator id must name an existing user
   * (422), an unknown incident is 404; otherwise the service assigns.
   * `names` is the users table, id to name.
   */
  method Assign(service: IncidentService, user: Actor, id: nat, operatorId: Option<nat>, names: map<nat, string>, now: nat)
    returns (r: Reply)
    requires service.Valid()
    modifies service, service.incidents, service.updates
    ensures service.Valid()
    ensures !IsAdmin(user.role) ==> r == Unauthorized
    ensures IsAdmin(user.role) && operatorId.Some? && operatorId.value !in names ==>
      r == Reply(422, "The selected operator id is invalid.")
    ensures r.status != 200 ==>
      service.incidents.rows == old(service.incidents.rows) &&
      service.updates.entries == old(service.updates.entries) && service.events == old(service.events)
    ensures r.status == 200 <==>
      IsAdmin(user.role) && (operatorId.None? || operatorId.value in names) && IndexOfId(old(service.incidents.rows), id).Some?
    ensures r.status == 200 ==>
      var k := IndexOfId(old(service.incidents.rows), id).value;
      var before := old(service.incidents.rows[k]);
      r.message == AssignMessage(operatorId) &&
      service.incidents.rows == old(service.incidents.rows)[k := Saved(before, before.(assignedTo := operatorId), now)] &&
      service.updates.entries == old(service.updates.entries) +
        [IncidentUpdate(old(service.updates.nextId), before.id, user.id, Assignment,
                        NameOf(names, before.assignedTo), NameOf(names, operatorId), None, false, now)]
    ensures r.status == 200 && operatorId.Some? && operatorId.value != 0 ==>
      service.events == old(service.events) + [IncidentAssigned(id, operatorId.value)]
    ensures r.status == 200 && !(operatorId.Some? && operatorId.value != 0) ==> service.events == old(service.events)
  {
    if !IsAdmin(user.role) {
      return Unauthorized;
    }
    if operatorId.Some? && operatorId.value !in names {
      return Reply(422, "The selected operator id is invalid.");
    }
    var found := IndexOfId(service.incidents.rows, id);
    if found.None? {
      return IncidentNotFound;
    }
    var _ := service.Assign(found.value, operatorId, user, names, now);
    r := Reply(200, AssignMessage(operatorId));
  }

  /**
   * `addComment`: 404, then 403 for a user who may not view the incident;
   * otherwise one COMMENT entry, internal only if asked for by a manager.
   */
  method AddComment(service: IncidentService, user: Actor, id: nat, comment: string, requested: Option<bool>, now: nat)
    returns (r: Reply)
    requires service.Valid()
    modifies service.updates
    ensures service.Valid()
    ensures r.status != 200 <==> FindViewable(old(service.incidents.rows), id, user, CannotComment).Err?
    ensures r.status != 200 ==>
      r == FindViewable(old(service.incidents.rows), id, user, CannotComment).error &&
      service.updates.entries == old(service.updates.entries)
    ensures r.status == 200 ==>
      r == Reply(200, "Comment added successfully.") &&
      service.updates.entries == old(service.updates.entries) +
        [IncidentUpdate(old(service.updates.nextId), id, user.id, Comment, None, None, Some(comment),
                        EffectiveInternal(requested, user.role), now)]
  {
    var found := FindViewable(service.incidents.rows, id, user, CannotComment);
    if found.Err? {
      return found.error;
    }
    var isInternal := requested.GetOr(false);
    if isInternal && !CanManageIncidents(user.role) {
      isInternal := false;
    }
    service.AddComment(found.value, user, comment, isInternal, now);
    r := Reply(200, "Comment added successfully.");
  }
}
