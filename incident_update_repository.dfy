/**
 * The `incident_updates` table: an append-only activity log with one
 * constructor per kind of entry, and the two reads that filter it by
 * visibility and order it newest first.
 */
module IncidentUpdateRepository {
  import opened Common
  import opened ActionTypeEnum
  import opened UserRoleEnum
  import opened UserModel
  import opened IncidentModel
  import opened IncidentUpdateModel
  import IncidentRepository

  /** The attributes of a new log entry as `create` receives them. */
  datatype NewUpdate = NewUpdate(
    incidentId: nat,
    userId: nat,
    actionType: ActionType,
    previousValue: Option<string>,
    newValue: Option<string>,
    comment: Option<string>,
    isInternal: bool)

  /** The stored entry made from `n`, with id `id`, created at `now`. */
  function Stored(n: NewUpdate, id: nat, now: nat): (r: IncidentUpdate)
    ensures r.id == id && r.createdAt == now
    ensures r.incidentId == n.incidentId && r.userId == n.userId && r.actionType == n.actionType
    ensures r.previousValue == n.previousValue && r.newValue == n.newValue
    ensures r.comment == n.comment && r.isInternal == n.isInternal
  {
    IncidentUpdate(id, n.incidentId, n.userId, n.actionType, n.previousValue, n.newValue, n.comment, n.isInternal, now)
  }

  /** `ORDER BY created_at DESC`. */
  function NewestFirst(u: IncidentUpdate): SortKey
  {
    SortKey(u.createdAt, 0)
  }

  /** An entry of incident `incidentId` that `viewer` may read: internal
      entries are hidden from a given viewer who cannot manage incidents. */
  predicate ShownTo(u: IncidentUpdate, incidentId: nat, viewer: Option<UserRole>)
  {
    u.incidentId == incidentId && (viewer.Some? && !CanManageIncidents(viewer.value) ==> !u.isInternal)
  }

  /** `getForIncident`: the incident's entries, without internal ones when a
      viewer is given who cannot manage incidents; a missing viewer sees all.
      Every such entry appears as often as in the table, newest first. */
  function GetForIncident(entries: seq<IncidentUpdate>, incidentId: nat, viewer: Option<UserRole>): (r: seq<IncidentUpdate>)
    ensures forall u :: u in r <==>
      u in entries && u.incidentId == incidentId &&
      (viewer.Some? && !CanManageIncidents(viewer.value) ==> !u.isInternal)
    ensures multiset(r) == multiset(Filter(entries, u => ShownTo(u, incidentId, viewer)))
    ensures SortedDesc(r, NewestFirst)
    ensures |r| <= |entries|
  {
    var own := Filter(entries, (u: IncidentUpdate) => u.incidentId == incidentId);
    var shown := if viewer.Some? && !CanManageIncidents(viewer.value) then PublicOnly(own) else own;
    var wanted := Filter(entries, u => ShownTo(u, incidentId, viewer));
    assert forall x :: multiset(shown)[x] == multiset(wanted)[x];
    assert multiset(shown) == multiset(wanted);
    var r := SortDesc(shown, NewestFirst);
    SameMembers(r, shown);
    r
  }

  /** A manager sees an incident's whole log, a reporter only its public part. */
  lemma GetForIncidentByViewer(entries: seq<IncidentUpdate>, incidentId: nat, u: IncidentUpdate)
    requires u in entries && u.incidentId == incidentId
    ensures u in GetForIncident(entries, incidentId, None)
    ensures u in GetForIncident(entries, incidentId, Some(Admin))
    ensures u in GetForIncident(entries, incidentId, Some(Operator))
    ensures u in GetForIncident(entries, incidentId, Some(Reporter)) <==> !u.isInternal
  {
  }

  /** The incident an entry belongs to exists and is within the user's scope. */
  predicate IncidentInScope(incidents: seq<Incident>, u: IncidentUpdate, user: Actor)
  {
    var k := IncidentRepository.IndexOfId(incidents, u.incidentId);
    k.Some? && IncidentRepository.UserScope(user, incidents[k.value])
  }

  /** The entries `getRecentActivity` may return to `user`, before the limit. */
  predicate RecentActivityVisible(incidents: seq<Incident>, u: IncidentUpdate, user: Option<Actor>)
  {
    user.None? ||
    (IncidentInScope(incidents, u, user.value) && (CanManageIncidents(user.value.role) || !u.isInternal))
  }

  /** `getRecentActivity`: the newest `limit` visible entries. */
  function GetRecentActivity(entries: seq<IncidentUpdate>, incidents: seq<Incident>, limit: nat, user: Option<Actor>): (r: seq<IncidentUpdate>)
    ensures TopN(r, Filter(entries, u => RecentActivityVisible(incidents, u, user)), NewestFirst, limit)
    ensures forall u :: u in r ==> u in entries && RecentActivityVisible(incidents, u, user)
    ensures user.Some? && !CanManageIncidents(user.value.role) ==> forall u :: u in r ==> !u.isInternal
  {
    var shown := Filter(entries, u => RecentActivityVisible(incidents, u, user));
    var all := SortDesc(shown, NewestFirst);
    TakeIsTopN(all, NewestFirst, limit);
    TopNOfPermutation(Take(all, limit), all, shown, NewestFirst, limit);
    TopNMembers(Take(all, limit), shown, NewestFirst, limit);
    Take(all, limit)
  }

  class IncidentUpdateRepository {
    var entries: seq<IncidentUpdate>
    /** The auto-increment counter of the `id` column. */
    var nextId: nat

    /** Every id is below the counter. */
    ghost predicate Valid()
      reads this
    {
      forall k :: 0 <= k < |entries| ==> entries[k].id < nextId
    }

    constructor ()
      ensures Valid() && entries == [] && nextId == 1
    {
      entries := [];
      nextId := 1;
    }

    /** `create`: appends exactly one entry and leaves the others alone. */
    method Create(data: NewUpdate, now: nat) returns (u: IncidentUpdate)
      requires Valid()
      modifies this
      ensures Valid()
      ensures u == Stored(data, old(nextId), now)
      ensures entries == old(entries) + [u] && nextId == old(nextId) + 1
    {
      u := Stored(data, nextId, now);
      entries := entries + [u];
      nextId := nextId + 1;
    }

    /** `createStatusChange`: a public STATUS_CHANGE entry from `previous` to `next`. */
    method CreateStatusChange(incidentId: nat, userId: nat, previous: string, next: string, comment: Option<string>, now: nat)
      returns (u: IncidentUpdate)
      requires Valid()
      modifies this
      ensures Valid() && nextId == old(nextId) + 1
      ensures entries == old(entries) + [u]
      ensures u.id == old(nextId) && u.incidentId == incidentId && u.userId == userId && u.createdAt == now
      ensures u.actionType == StatusChange && !u.isInternal
      ensures u.previousValue == Some(previous) && u.newValue == Some(next) && u.comment == comment
    {
      u := Create(NewUpdate(incidentId, userId, StatusChange, Some(previous), Some(next), comment, false), now);
    }

    /** `createAssignmentChange`: a public ASSIGNMENT entry; either name may be absent. */
    method CreateAssignmentChange(incidentId: nat, userId: nat, previous: Option<string>, next: Option<string>, comment: Option<string>, now: nat)
      returns (u: IncidentUpdate)
      requires Valid()
      modifies this
      ensures Valid() && nextId == old(nextId) + 1
      ensures entries == old(entries) + [u]
      ensures u.id == old(nextId) && u.incidentId == incidentId && u.userId == userId && u.createdAt == now
      ensures u.actionType == Assignment && !u.isInternal
      ensures u.previousValue == previous && u.newValue == next && u.comment == comment
    {
      u := Create(NewUpdate(incidentId, userId, Assignment, previous, next, comment, false), now);
    }

    /** `createComment`: a COMMENT entry with the given internal flag and no values. */
    method CreateComment(incidentId: nat, userId: nat, comment: string, isInternal: bool, now: nat)
      returns (u: IncidentUpdate)
      requires Valid()
      modifies this
      ensures Valid() && nextId == old(nextId) + 1
      ensures entries == old(entries) + [u]
      ensures u.id == old(nextId) && u.incidentId == incidentId && u.userId == userId && u.createdAt == now
      ensures u.actionType == Comment && u.isInternal == isInternal
      ensures u.previousValue == None && u.newValue == None && u.comment == Some(comment)
    {
      u := Create(NewUpdate(incidentId, userId, Comment, None, None, Some(comment), isInternal), now);
    }

    /**
     * The `ON DELETE CASCADE` of `incident_id`: deleting an incident
     * removes every entry of its log, and keeps the others in order.
     */
    method DeleteForIncident(incidentId: nat)
      requires Valid()
      modifies this
      ensures Valid() && nextId == old(nextId)
      ensures entries == Filter(old(entries), (u: IncidentUpdate) => u.incidentId != incidentId)
      ensures forall u :: u in entries <==> u in old(entries) && u.incidentId != incidentId
    {
      entries := Filter(entries, (u: IncidentUpdate) => u.incidentId != incidentId);
      forall k | 0 <= k < |entries|
        ensures entries[k].id < nextId
      {
        assert entries[k] in old(entries);
      }
    }

    /** `delete`: removes the entry at index `k`. */
    method Delete(k: nat)
      requires Valid() && k < |entries|
      modifies this
      ensures Valid() && nextId == old(nextId)
      ensures entries == old(entries)[..k] + old(entries)[k + 1..]
    {
      entries := entries[..k] + entries[k + 1..];
    }
  }
}
