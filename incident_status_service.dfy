/**
 * Status changes as the service performs them: the transition must be
 * legal, resolving needs notes, and a successful change writes the row,
 * one STATUS_CHANGE log entry and one event, in that order.
 */
module IncidentStatusService {
  import opened Common
  import opened IncidentStatusEnum
  import opened UserModel
  import opened IncidentModel
  import opened ActionTypeEnum
  import opened IncidentUpdateModel
  import opened Events
  import opened IncidentRepository
  import opened IncidentUpdateRepository

  datatype StatusError =
    | UnknownStatus(value: string)
    | IllegalTransition(from: IncidentStatus, to: IncidentStatus)
    | NotesRequired

  /**
   * The checks of `updateStatus`, in their order: the target must be a
   * status value, the move must be legal, and resolving needs notes given
   * now or already stored.
   */
  function CheckStatusUpdate(i: Incident, target: string, notes: Option<string>): (r: Result<IncidentStatus, StatusError>)
    ensures r.Ok? <==>
      FromValue(target).Some? && CanTransitionTo(i.status, FromValue(target).value) &&
      !(FromValue(target).value == Resolved && PhpEmpty(notes) && PhpEmpty(i.resolutionNotes))
    ensures r.Ok? ==> IncidentStatusEnum.Value(r.value) == target
    ensures r == Err(NotesRequired) ==> i.status == Investigating
  {
    match FromValue(target)
    case None => Err(UnknownStatus(target))
    case Some(t) =>
      if !CanTransitionTo(i.status, t) then Err(IllegalTransition(i.status, t))
      else if t == Resolved && PhpEmpty(notes) && PhpEmpty(i.resolutionNotes) then Err(NotesRequired)
      else Ok(t)
  }

  /** The legality check comes first: resolving an open incident without
      notes is reported as an illegal move, not as missing notes. */
  lemma TransitionCheckedBeforeNotes(i: Incident, notes: Option<string>)
    requires i.status == Open
    ensures CheckStatusUpdate(i, "resolved", notes) == Err(IllegalTransition(Open, Resolved))
  {
  }

  /** Resolving an investigated incident needs notes in the request or on the row. */
  lemma ResolvingNeedsSomeNotes(i: Incident, notes: Option<string>)
    requires i.status == Investigating
    ensures CheckStatusUpdate(i, "resolved", notes).Ok? <==> PhpTruthy(notes) || PhpTruthy(i.resolutionNotes)
  {
  }

  /** `getValidTransitions`: value/label pairs of the allowed targets, in order. */
  function GetValidTransitions(i: Incident): (r: seq<(string, string)>)
    ensures |r| == |ValidTransitions(i.status)|
    ensures forall k :: 0 <= k < |r| ==>
      r[k] == (IncidentStatusEnum.Value(ValidTransitions(i.status)[k]), IncidentStatusEnum.Label(ValidTransitions(i.status)[k]))
  {
    var ts := ValidTransitions(i.status);
    seq(|ts|, k requires 0 <= k < |ts| => (IncidentStatusEnum.Value(ts[k]), IncidentStatusEnum.Label(ts[k])))
  }

  /** `canTransition`: false for a string that names no status. */
  predicate CanTransition(i: Incident, target: string)
    ensures CanTransition(i, target) <==> FromValue(target).Some? && CanTransitionTo(i.status, FromValue(target).value)
  {
    match FromValue(target)
    case None => false
    case Some(t) => CanTransitionTo(i.status, t)
  }

  /** The offered targets are exactly the targets `canTransition` accepts. */
  lemma OfferedIffAllowed(i: Incident, target: string)
    ensures CanTransition(i, target) <==> exists k :: 0 <= k < |GetValidTransitions(i)| && GetValidTransitions(i)[k].0 == target
  {
    var r := GetValidTransitions(i);
    if CanTransition(i, target) {
      assert r[0].0 == target;
    }
    if exists k :: 0 <= k < |r| && r[k].0 == target {
      var k :| 0 <= k < |r| && r[k].0 == target;
      ValueRoundTrip(ValidTransitions(i.status)[k]);
    }
  }

  class IncidentStatusService {
    const incidents: IncidentRepository
    const updates: IncidentUpdateRepository
    /** The events dispatched so far. */
    var events: seq<Event>

    ghost predicate Valid()
      reads this, incidents, updates
    {
      incidents.Valid() && updates.Valid()
    }

    constructor (incidents: IncidentRepository, updates: IncidentUpdateRepository)
      ensures this.incidents == incidents && this.updates == updates && events == []
    {
      this.incidents := incidents;
      this.updates := updates;
      events := [];
    }

    /**
     * `updateStatus` on the incident at row `k`, by `user`. A refused change
     * writes nothing; an accepted one writes the row, appends one public
     * STATUS_CHANGE entry carrying the notes, and raises one event.
     */
    method UpdateStatus(k: nat, target: string, user: Actor, notes: Option<string>, now: nat)
      returns (r: Result<Incident, StatusError>)
      requires Valid() && k < |incidents.rows|
      modifies this, incidents, updates
      ensures Valid()
      ensures r.Err? <==> CheckStatusUpdate(old(incidents.rows[k]), target, notes).Err?
      ensures r.Err? ==> r.error == CheckStatusUpdate(old(incidents.rows[k]), target, notes).error
      ensures r.Err? ==>
        incidents.rows == old(incidents.rows) && updates.entries == old(updates.entries) && events == old(events)
      ensures r.Ok? ==>
        var before := old(incidents.rows[k]);
        var t := CheckStatusUpdate(before, target, notes).value;
        r.value == Saved(before, WithStatus(before, t, notes, now), now) &&
        r.value.status == t &&
        incidents.rows == old(incidents.rows)[k := r.value] &&
        updates.entries == old(updates.entries) + [IncidentUpdate(old(updates.nextId), before.id, user.id, StatusChange,
            Some(IncidentStatusEnum.Value(before.status)), Some(target), notes, false, now)] &&
        events == old(events) + [IncidentStatusChanged(before.id, before.status, t, user.id)]
      ensures incidents.nextId == old(incidents.nextId)
    {
      var before := incidents.rows[k];
      var check := CheckStatusUpdate(before, target, notes);
      if check.Err? {
        return Err(check.error);
      }
      var t := check.value;
      incidents.UpdateStatus(k, t, notes, now);
      var after := incidents.rows[k];
      var _ := updates.CreateStatusChange(before.id, user.id, IncidentStatusEnum.Value(before.status),
                                          IncidentStatusEnum.Value(t), notes, now);
      events := events + [IncidentStatusChanged(before.id, before.status, t, user.id)];
      r := Ok(after);
    }
  }
}
