/**
 * Creating, editing, assigning and commenting on incidents, and the
 * activity-log entries and events each of those produces.
 */
module IncidentService {
  import opened Common
  import opened IncidentStatusEnum
  import opened IncidentPriorityEnum
  import opened ActionTypeEnum
  import opened UserModel
  import opened IncidentModel
  import opened IncidentUpdateModel
  import opened Events
  import opened IncidentRepository
  import opened IncidentUpdateRepository

  /** The validated request of `create`; absent optional keys are `None`. */
  datatype CreateRequest = CreateRequest(
    title: string,
    description: string,
    severity: Option<string>,
    priority: Option<IncidentPriority>,
    category: Option<string>,
    impactDescription: Option<string>,
    affectedSystems: Option<seq<string>>,
    dueDate: Option<nat>)

  /** The row attributes `create` passes on: the defaults are medium, normal
      and other, the reporter is the creator, and no number is supplied. */
  function CreateAttributes(data: CreateRequest, reporter: Actor): (r: NewIncident)
    ensures r.incidentNumber == "" && r.reportedBy == reporter.id
    ensures r.severity == (if data.severity.Some? then data.severity.value else "medium")
    ensures r.priority == (if data.priority.Some? then data.priority.value else Normal)
    ensures r.category == (if data.category.Some? then data.category.value else "other")
    ensures r.title == data.title && r.description == data.description
  {
    NewIncident("", data.title, data.description, data.severity.GetOr("medium"), data.priority.GetOr(Normal),
                data.category.GetOr("other"), reporter.id, data.impactDescription, data.affectedSystems, data.dueDate)
  }

  /** The text of the log entry written when an incident is reported. */
  const ReportedComment: string := "Incident reported and logged into the system."

  /** The comment of the EDIT entry. */
  const EditComment: string := "Incident details updated."

  /** The columns `update` copies from the request, in order; `resolution_notes` is not one of them. */
  const UpdateFields: seq<EditField> := [Title, Description, Category, ImpactDescription, AffectedSystems, DueDate]

  /** The validated request of `update`. */
  datatype EditRequest = EditRequest(fields: map<EditField, FieldValue>, severity: Option<string>, priority: Option<IncidentPriority>)

  /** `isset($data[$field])` for each update field: present and not null. */
  function Collected(fields: map<EditField, FieldValue>): (m: map<EditField, FieldValue>)
    ensures forall f :: f in m <==> f in fields && f in UpdateFields && fields[f] != Null
    ensures forall f :: f in m ==> m[f] == fields[f]
    ensures ResolutionNotes !in m
  {
    map f | f in fields && f in UpdateFields && fields[f] != Null :: fields[f]
  }

  predicate SeverityChanged(i: Incident, data: EditRequest)
  {
    data.severity.Some? && data.severity.value != i.severity
  }

  predicate PriorityChanged(i: Incident, data: EditRequest)
  {
    data.priority.Some? && data.priority.value != i.priority
  }

  /** `$updateData`: the collected columns plus a severity or priority that differs. */
  function UpdatePayload(i: Incident, data: EditRequest): (d: UpdateData)
    ensures d.fields == Collected(data.fields)
    ensures d.severity.Some? <==> SeverityChanged(i, data)
    ensures d.priority.Some? <==> PriorityChanged(i, data)
  {
    UpdateData(Collected(data.fields),
               if SeverityChanged(i, data) then data.severity else None,
               if PriorityChanged(i, data) then data.priority else None)
  }

  /** The SEVERITY_CHANGE and PRIORITY_CHANGE entries of `update`, in that order. */
  function ChangeLog(i: Incident, data: EditRequest, userId: nat): (r: seq<NewUpdate>)
    ensures |r| == (if SeverityChanged(i, data) then 1 else 0) + (if PriorityChanged(i, data) then 1 else 0)
  {
    (if SeverityChanged(i, data)
     then [NewUpdate(i.id, userId, SeverityChange, Some(i.severity), data.severity, None, false)] else []) +
    (if PriorityChanged(i, data)
     then [NewUpdate(i.id, userId, PriorityChange, Some(IncidentPriorityEnum.Value(i.priority)),
                     Some(IncidentPriorityEnum.Value(data.priority.value)), None, false)] else [])
  }

  /** The log entries `update` writes, in order. */
  function UpdateLog(i: Incident, data: EditRequest, userId: nat): (r: seq<NewUpdate>)
    ensures |r| <= 3
    ensures r == [] <==> UpdatePayload(i, data).IsEmpty()
    ensures r != [] ==> r[|r| - 1] == NewUpdate(i.id, userId, Edit, None, None, Some(EditComment), false)
    ensures forall k :: 0 <= k < |r| ==> r[k].incidentId == i.id && r[k].userId == userId && !r[k].isInternal
  {
    if UpdatePayload(i, data).IsEmpty() then []
    else ChangeLog(i, data, userId) + [NewUpdate(i.id, userId, Edit, None, None, Some(EditComment), false)]
  }

  /** A severity change is logged before a priority change, and both before the EDIT entry. */
  lemma UpdateLogOrder(i: Incident, data: EditRequest, userId: nat)
    ensures var r := UpdateLog(i, data, userId);
      (SeverityChanged(i, data) ==> r[0].actionType == SeverityChange && r[0].previousValue == Some(i.severity)
                                    && r[0].newValue == data.severity) &&
      (PriorityChanged(i, data) ==> r[|r| - 2].actionType == PriorityChange) &&
      (!SeverityChanged(i, data) && !PriorityChanged(i, data) ==> |r| <= 1)
  {
  }

  /** Supplying any column logs an EDIT entry even when nothing changes,
      and `resolution_notes` is never applied. */
  lemma EditAlwaysLoggedNotesIgnored(i: Incident, data: EditRequest, userId: nat)
    ensures Collected(data.fields) != map[] ==> |UpdateLog(i, data, userId)| >= 1
    ensures ApplyUpdate(i, UpdatePayload(i, data)).resolutionNotes == i.resolutionNotes
    ensures ApplyUpdate(i, UpdatePayload(i, data)).status == i.status
  {
    ApplyUpdateKeepsLifecycle(i, UpdatePayload(i, data));
  }

  /** Stored entries made from `ns`, with consecutive ids from `firstId`. */
  function Stamp(ns: seq<NewUpdate>, firstId: nat, now: nat): (r: seq<IncidentUpdate>)
    ensures |r| == |ns|
    ensures forall k :: 0 <= k < |r| ==> r[k] == Stored(ns[k], firstId + k, now)
  {
    seq(|ns|, k requires 0 <= k < |ns| => Stored(ns[k], firstId + k, now))
  }

  lemma StampSnoc(ns: seq<NewUpdate>, e: NewUpdate, firstId: nat, now: nat)
    ensures Stamp(ns + [e], firstId, now) == Stamp(ns, firstId, now) + [Stored(e, firstId + |ns|, now)]
  {
  }

  /** The stored EDIT entry of `update`. */
  function EditEntry(i: Incident, userId: nat, id: nat, now: nat): (r: IncidentUpdate)
    ensures r.id == id && r.incidentId == i.id && r.userId == userId && r.actionType == Edit
    ensures r.comment == Some(EditComment) && !r.isInternal && r.createdAt == now
  {
    IncidentUpdate(id, i.id, userId, Edit, None, None, Some(EditComment), false, now)
  }

  /** The stored entries of `update` are its log, stamped: the changes, then the EDIT entry. */
  lemma UpdateLogStamped(i: Incident, data: EditRequest, userId: nat, firstId: nat, now: nat)
    ensures UpdatePayload(i, data).IsEmpty() ==> Stamp(UpdateLog(i, data, userId), firstId, now) == []
    ensures var ch := ChangeLog(i, data, userId);
      !UpdatePayload(i, data).IsEmpty() ==>
        Stamp(UpdateLog(i, data, userId), firstId, now) == Stamp(ch, firstId, now) + [EditEntry(i, userId, firstId + |ch|, now)]
  {
    if !UpdatePayload(i, data).IsEmpty() {
      StampSnoc(ChangeLog(i, data, userId), NewUpdate(i.id, userId, Edit, None, None, Some(EditComment), false), firstId, now);
    }
  }

  /** The two steps of `update` on the log, the change entries and then
      the EDIT entry for a non-empty payload, store exactly its log. */
  lemma LogOfUpdate(i: Incident, data: EditRequest, userId: nat, now: nat, entries0: seq<IncidentUpdate>, id0: nat,
                    changes: seq<NewUpdate>, logged: seq<IncidentUpdate>, next: nat, entries: seq<IncidentUpdate>, nextId: nat)
    requires changes == ChangeLog(i, data, userId)
    requires logged == entries0 + Stamp(changes, id0, now) && next == id0 + |changes|
    requires UpdatePayload(i, data).IsEmpty() ==> entries == logged && nextId == next
    requires !UpdatePayload(i, data).IsEmpty() ==> entries == logged + [EditEntry(i, userId, next, now)] && nextId == next + 1
    ensures entries == entries0 + Stamp(UpdateLog(i, data, userId), id0, now)
    ensures nextId == id0 + |UpdateLog(i, data, userId)|
  {
    UpdateLogStamped(i, data, userId, id0, now);
    if UpdatePayload(i, data).IsEmpty() {
      assert changes == [];
    }
  }

  /** The name of the user with an id, when both are present (`$incident->assignedTo?->name`). */
  function NameOf(names: map<nat, string>, id: Option<nat>): (r: Option<string>)
    ensures r.Some? <==> id.Some? && id.value in names
  {
    if id.Some? && id.value in names then Some(names[id.value]) else None
  }

  class IncidentService {
    const incidents: IncidentRepository
    const updates: IncidentUpdateRepository
    /** The events dispatched so far. */
    var events: seq<Event>

    ghost predicate Valid()
      reads this, incidents, updates
    {
      incidents.Valid() && updates.Valid()
    }

    constructor (incidents: IncidentRepository, updates: IncidentUpdateRepository)
      ensures this.incidents == incidents && this.updates == updates && events == []
    {
      this.incidents := incidents;
      this.updates := updates;
      events := [];
    }

    /**
     * `create`: one new open row with a generated number, one public
     * COMMENT by the reporter, and an `IncidentCreated` event.
     */
    method Create(data: CreateRequest, reporter: Actor, date: string, now: nat) returns (i: Incident)
      requires Valid()
      modifies this, incidents, updates
      ensures Valid()
      ensures i.id == old(incidents.nextId) && i.status == Open && i.assignedTo == None
      ensures StartsWith(i.incidentNumber, IncidentNumber.Prefix(date))
      ensures i.incidentNumber !in NumbersOf(old(incidents.rows))
      ensures var a := CreateAttributes(data, reporter);
        i.severity == a.severity && i.priority == a.priority && i.category == a.category &&
        i.reportedBy == reporter.id && i.title == data.title && i.description == data.description
      ensures incidents.rows == old(incidents.rows) + [i]
      ensures updates.entries == old(updates.entries) +
        [IncidentUpdate(old(updates.nextId), i.id, reporter.id, Comment, None, None, Some(ReportedComment), false, now)]
      ensures events == old(events) + [IncidentCreated(i.id)]
    {
      var r := incidents.Create(CreateAttributes(data, reporter), date, now);
      i := r.value;
      var _ := updates.CreateComment(i.id, reporter.id, ReportedComment, false, now);
      events := events + [IncidentCreated(i.id)];
    }

    /** The `foreach` over the update fields: keeps each one that is set. */
    static method CollectFields(fields: map<EditField, FieldValue>) returns (m: map<EditField, FieldValue>)
      ensures m == Collected(fields)
    {
      m := map[];
      var j := 0;
      while j < |UpdateFields|
        invariant 0 <= j <= |UpdateFields|
        invariant m == map f | f in fields && f in UpdateFields[..j] && fields[f] != Null :: fields[f]
      {
        var f := UpdateFields[j];
        if f in fields && fields[f] != Null {
          m := m[f := fields[f]];
        }
        assert UpdateFields[..j + 1] == UpdateFields[..j] + [f];
        j := j + 1;
      }
      assert UpdateFields[..j] == UpdateFields;
    }

    /**
     * `update` of the row at `k` by `user`: logs a severity change, then a
     * priority change, then, when anything was collected, writes the row and
     * logs one EDIT entry. With nothing collected nothing is written.
     */
    method Update(k: nat, data: EditRequest, user: Actor, now: nat) returns (i: Incident)
      requires Valid() && k < |incidents.rows|
      modifies incidents, updates
      ensures Valid() && incidents.nextId == old(incidents.nextId)
      ensures var before := old(incidents.rows[k]);
        var d := UpdatePayload(before, data);
        i == if d.IsEmpty() then before else Saved(before, ApplyUpdate(before, d), now)
      ensures incidents.rows == old(incidents.rows)[k := i]
      ensures updates.entries == old(updates.entries) + Stamp(UpdateLog(old(incidents.rows[k]), data, user.id), old(updates.nextId), now)
      ensures updates.nextId == old(updates.nextId) + |UpdateLog(old(incidents.rows[k]), data, user.id)|
    {
      var before := incidents.rows[k];
      var payload := EditPayload(before, data);
      ghost var id0, entries0 := updates.nextId, updates.entries;
      var changes := LogChanges(before, data, user, now);
      ghost var logged, next := updates.entries, updates.nextId;
      SaveEdit(k, payload, user, now);
      LogOfUpdate(before, data, user.id, now, entries0, id0, changes, logged, next, updates.entries, updates.nextId);
      i := incidents.rows[k];
    }

    /** `$updateData` as `update` builds it: the collected columns, then the changed severity and priority. */
    static method EditPayload(before: Incident, data: EditRequest) returns (payload: UpdateData)
      ensures payload == UpdatePayload(before, data)
    {
      var collected := CollectFields(data.fields);
      payload := UpdateData(collected, if SeverityChanged(before, data) then data.severity else None,
                            if PriorityChanged(before, data) then data.priority else None);
    }

    /** The tail of `update`: for a non-empty payload the row is written and
        one EDIT entry logged; for an empty one nothing happens. */
    method SaveEdit(k: nat, payload: UpdateData, user: Actor, now: nat)
      requires Valid() && k < |incidents.rows|
      modifies incidents, updates
      ensures Valid() && incidents.nextId == old(incidents.nextId)
      ensures payload.IsEmpty() ==>
        incidents.rows == old(incidents.rows) && updates.entries == old(updates.entries) && updates.nextId == old(updates.nextId)
      ensures var before := old(incidents.rows[k]);
        !payload.IsEmpty() ==>
          incidents.rows == old(incidents.rows)[k := Saved(before, ApplyUpdate(before, payload), now)] &&
          updates.entries == old(updates.entries) + [EditEntry(before, user.id, old(updates.nextId), now)] &&
          updates.nextId == old(updates.nextId) + 1
    {
      if !payload.IsEmpty() {
        var before := incidents.rows[k];
        incidents.Update(k, payload, now);
        var _ := updates.Create(NewUpdate(before.id, user.id, Edit, None, None, Some(EditComment), false), now);
      }
    }

    /** The severity and priority checks of `update`, each logging a change. */
    method LogChanges(before: Incident, data: EditRequest, user: Actor, now: nat) returns (log: seq<NewUpdate>)
      requires updates.Valid()
      modifies updates
      ensures updates.Valid()
      ensures log == ChangeLog(before, data, user.id)
      ensures updates.entries == old(updates.entries) + Stamp(log, old(updates.nextId), now)
      ensures updates.nextId == old(updates.nextId) + |log|
    {
      log := [];
      if data.severity.Some? && data.severity.value != before.severity {
        var e := NewUpdate(before.id, user.id, SeverityChange, Some(before.severity), data.severity, None, false);
        var _ := updates.Create(e, now);
        StampSnoc(log, e, old(updates.nextId), now);
        log := log + [e];
      }
      if data.priority.Some? && data.priority.value != before.priority {
        var e := NewUpdate(before.id, user.id, PriorityChange, Some(IncidentPriorityEnum.Value(before.priority)),
                           Some(IncidentPriorityEnum.Value(data.priority.value)), None, false);
        var _ := updates.Create(e, now);
        StampSnoc(log, e, old(updates.nextId), now);
        log := log + [e];
      }
    }

    /**
     * `delete`: removes the row, and the cascade on `incident_updates`
     * removes its log; nothing is logged and no event is raised.
     */
    method Delete(k: nat)
      requires Valid() && k < |incidents.rows|
      modifies incidents, updates
      ensures Valid() && incidents.nextId == old(incidents.nextId) && updates.nextId == old(updates.nextId)
      ensures incidents.rows == old(incidents.rows)[..k] + old(incidents.rows)[k + 1..]
      ensures var id := old(incidents.rows[k].id);
        updates.entries == Filter(old(updates.entries), (u: IncidentUpdate) => u.incidentId != id)
      ensures forall u :: u in updates.entries <==> u in old(updates.entries) && u.incidentId != old(incidents.rows[k].id)
      ensures events == old(events)
    {
      var id := incidents.rows[k].id;
      incidents.Delete(k);
      updates.DeleteForIncident(id);
    }

    /**
     * `assign`: sets or clears the assignee, logs one public ASSIGNMENT
     * entry with the previous and new assignee names, and raises
     * `IncidentAssigned` only for a truthy operator id.
     */
    method Assign(k: nat, operatorId: Option<nat>, assignedBy: Actor, names: map<nat, string>, now: nat)
      returns (i: Incident)
      requires Valid() && k < |incidents.rows|
      modifies this, incidents, updates
      ensures Valid() && incidents.nextId == old(incidents.nextId)
      ensures var before := old(incidents.rows[k]);
        i == Saved(before, before.(assignedTo := operatorId), now) &&
        incidents.rows == old(incidents.rows)[k := i] &&
        updates.entries == old(updates.entries) +
          [IncidentUpdate(old(updates.nextId), before.id, assignedBy.id, Assignment,
                          NameOf(names, before.assignedTo), NameOf(names, operatorId), None, false, now)]
      ensures operatorId.Some? && operatorId.value != 0 ==> events == old(events) + [IncidentAssigned(i.id, operatorId.value)]
      ensures !(operatorId.Some? && operatorId.value != 0) ==> events == old(events)
    {
      var before := incidents.rows[k];
      var previous := NameOf(names, before.assignedTo);
      incidents.Assign(k, operatorId, now);
      i := incidents.rows[k];
      var next := NameOf(names, i.assignedTo);
      var _ := updates.CreateAssignmentChange(i.id, assignedBy.id, previous, next, None, now);
      if operatorId.Some? && operatorId.value != 0 {
        events := events + [IncidentAssigned(i.id, operatorId.value)];
      }
    }

    /** `addComment`: exactly one COMMENT entry with the given internal flag. */
    method AddComment(k: nat, user: Actor, comment: string, isInternal: bool, now: nat)
      requires Valid() && k < |incidents.rows|
      modifies updates
      ensures Valid()
      ensures updates.entries == old(updates.entries) +
        [IncidentUpdate(old(updates.nextId), incidents.rows[k].id, user.id, Comment, None, None, Some(comment), isInternal, now)]
    {
      var _ := updates.CreateComment(incidents.rows[k].id, user.id, comment, isInternal, now);
    }
  }
}
