/**
 * The `incidents` table: row-level writes (create, status change,
 * assignment, edit, delete) and the role scoping, filters and orderings of
 * the listing queries, over an in-memory sequence of rows.
 */
module IncidentRepository {
  import opened Common
  import opened IncidentStatusEnum
  import opened IncidentPriorityEnum
  import opened UserRoleEnum
  import opened UserModel
  import opened IncidentModel
  import IncidentNumber
  import IncidentPolicy

  // ---------------------------------------------------------------------
  // Role scoping

  /**
   * `applyUserFilter` (and the identical blocks of `paginateForUser` and
   * `getRecent`): reporters see what they reported, operators what is
   * assigned to or reported by them, admins everything.
   */
  predicate UserScope(user: Actor, i: Incident)
    ensures UserScope(user, i) <==> IncidentPolicy.View(user, i)
  {
    if user.role == Reporter then i.reportedBy == user.id
    else if user.role == Operator then i.assignedTo == Some(user.id) || i.reportedBy == user.id
    else true
  }

  /** Scoping for callers that may pass no user: no user means no filter. */
  predicate OptionalUserScope(user: Option<Actor>, i: Incident)
  {
    user.None? || UserScope(user.value, i)
  }

  // ---------------------------------------------------------------------
  // Filters (`buildQuery`)

  datatype SortColumn = CreatedAtColumn | UpdatedAtColumn
  datatype SortOrder = Asc | Desc

  /**
   * The listing filters as the request supplies them. A string filter that
   * PHP's `empty()` rejects is ignored; so is an id of 0.
   */
  datatype IncidentFilters = IncidentFilters(
    search: Option<string>,
    status: Option<string>,
    severity: Option<string>,
    priority: Option<string>,
    category: Option<string>,
    fromDate: Option<nat>,
    toDate: Option<nat>,
    assignedTo: Option<nat>,
    reportedBy: Option<nat>,
    sortBy: Option<SortColumn>,
    sortOrder: Option<SortOrder>)

  const NoFilters := IncidentFilters(None, None, None, None, None, None, None, None, None, None, None)

  /** `!empty($id)` for an integer filter. */
  predicate IdGiven(id: Option<nat>) { id.Some? && id.value != 0 }

  /** A present string filter holds, or the filter is empty. */
  predicate StringFilter(f: Option<string>, holds: string -> bool)
  {
    PhpEmpty(f) || holds(f.value)
  }

  /** The row passes every non-empty filter of `buildQuery`. */
  predicate MatchesFilters(f: IncidentFilters, i: Incident)
  {
    StringFilter(f.search, t => SearchScope(i, t)) &&
    StringFilter(f.status, s => StatusScope(i, s)) &&
    StringFilter(f.severity, s => SeverityScope(i, s)) &&
    StringFilter(f.priority, p => PriorityScope(i, p)) &&
    StringFilter(f.category, c => CategoryScope(i, c)) &&
    ((f.fromDate.Some? || f.toDate.Some?) ==> DateRangeScope(i, f.fromDate, f.toDate)) &&
    (IdGiven(f.assignedTo) ==> AssignedToScope(i, f.assignedTo.value)) &&
    (IdGiven(f.reportedBy) ==> ReportedByScope(i, f.reportedBy.value))
  }

  /** Empty filters add nothing. */
  lemma NoFiltersMatchEverything(i: Incident)
    ensures MatchesFilters(NoFilters, i)
  {
  }

  /** Each non-empty filter is one conjunct of the query. */
  lemma EachFilterIsAConjunct(f: IncidentFilters, i: Incident)
    requires MatchesFilters(f, i)
    ensures !PhpEmpty(f.search) ==> SearchScope(i, f.search.value)
    ensures !PhpEmpty(f.status) ==> StatusScope(i, f.status.value)
    ensures !PhpEmpty(f.severity) ==> SeverityScope(i, f.severity.value)
    ensures !PhpEmpty(f.priority) ==> PriorityScope(i, f.priority.value)
    ensures !PhpEmpty(f.category) ==> CategoryScope(i, f.category.value)
    ensures f.fromDate.Some? && f.toDate.None? ==> DateOf(i.createdAt) == f.fromDate.value
    ensures f.toDate.Some? ==> DateOf(i.createdAt) <= f.toDate.value
    ensures IdGiven(f.assignedTo) ==> i.assignedTo == f.assignedTo
    ensures IdGiven(f.reportedBy) ==> i.reportedBy == f.reportedBy.value
  {
  }

  /** The ordering key of `orderBy($sortBy, $sortOrder)`; created_at desc by default. */
  function ListingKey(f: IncidentFilters): (key: Incident -> SortKey)
    ensures f.sortBy.None? && f.sortOrder.None? ==> forall i :: key(i) == SortKey(i.createdAt, 0)
  {
    var column := f.sortBy.GetOr(CreatedAtColumn);
    var order := f.sortOrder.GetOr(Desc);
    (i: Incident) =>
      var ts := if column == CreatedAtColumn then i.createdAt else i.updatedAt;
      if order == Desc then SortKey(ts, 0) else SortKey(0 - ts as int, 0)
  }

  /** The rows `paginateForUser` pages through: filtered, scoped and ordered. */
  function ListForUser(rows: seq<Incident>, user: Actor, f: IncidentFilters): (r: seq<Incident>)
    ensures forall i :: i in r <==> i in rows && MatchesFilters(f, i) && UserScope(user, i)
    ensures multiset(r) <= multiset(rows)
    ensures SortedDesc(r, ListingKey(f))
  {
    var picked := Filter(rows, i => MatchesFilters(f, i) && UserScope(user, i));
    var r := SortDesc(picked, ListingKey(f));
    SameMembers(r, picked);
    r
  }

  /** `latest()`: created_at descending. */
  function NewestCreated(i: Incident): SortKey
  {
    SortKey(i.createdAt, 0)
  }

  /** `getRecent`: the newest `limit` rows the user may see. */
  function GetRecent(rows: seq<Incident>, limit: nat, user: Option<Actor>): (r: seq<Incident>)
    ensures TopN(r, Filter(rows, i => OptionalUserScope(user, i)), NewestCreated, limit)
    ensures forall i :: i in r ==> i in rows && OptionalUserScope(user, i)
  {
    var picked := Filter(rows, i => OptionalUserScope(user, i));
    var all := SortDesc(picked, NewestCreated);
    TakeIsTopN(all, NewestCreated, limit);
    TopNOfPermutation(Take(all, limit), all, picked, NewestCreated, limit);
    TopNMembers(Take(all, limit), picked, NewestCreated, limit);
    Take(all, limit)
  }

  /** `getAssignedTo`: the user's unresolved incidents, most urgent first and
      oldest first within a priority; a limit of 0 or none means all. */
  function GetAssignedTo(rows: seq<Incident>, userId: nat, limit: Option<nat>): (r: seq<Incident>)
    ensures forall i :: i in r ==> i in rows && i.assignedTo == Some(userId) && Unresolved(i)
    ensures IdGiven(limit) ==>
      TopN(r, Filter(rows, i => AssignedToScope(i, userId) && Unresolved(i)), AssignedKey, limit.value)
    ensures !IdGiven(limit) ==> multiset(r) == multiset(Filter(rows, i => AssignedToScope(i, userId) && Unresolved(i)))
    ensures SortedDesc(r, AssignedKey)
  {
    var picked := Filter(rows, i => AssignedToScope(i, userId) && Unresolved(i));
    var all := SortDesc(picked, AssignedKey);
    SameMembers(all, picked);
    if IdGiven(limit) then
      TakeIsTopN(all, AssignedKey, limit.value);
      TopNOfPermutation(Take(all, limit.value), all, picked, AssignedKey, limit.value);
      TopNMembers(Take(all, limit.value), picked, AssignedKey, limit.value);
      Take(all, limit.value)
    else all
  }

  /** Priority descending (enum declaration order), then created_at ascending. */
  function AssignedKey(i: Incident): SortKey
  {
    SortKey(Weight(i.priority), 0 - i.createdAt as int)
  }

  /** Position of a severity in the column's enum declaration. */
  function SeverityRank(severity: string): int
  {
    if severity == "low" then 0
    else if severity == "medium" then 1
    else if severity == "high" then 2
    else if severity == "critical" then 3
    else -1
  }

  /** Severity descending, then updated_at ascending. */
  function AtRiskKey(i: Incident): SortKey
  {
    SortKey(SeverityRank(i.severity), 0 - i.updatedAt as int)
  }

  /** `getAtRisk`: unresolved incidents not updated for `hours` hours,
      most severe first and least recently updated first within a severity. */
  function GetAtRisk(rows: seq<Incident>, hours: nat, now: nat): (r: seq<Incident>)
    ensures forall i :: i in r <==> i in rows && AtRiskScope(i, hours, now)
    ensures multiset(r) == multiset(Filter(rows, i => AtRiskScope(i, hours, now)))
    ensures SortedDesc(r, AtRiskKey)
  {
    var picked := Filter(rows, i => AtRiskScope(i, hours, now));
    var r := SortDesc(picked, AtRiskKey);
    SameMembers(r, picked);
    r
  }

  // ---------------------------------------------------------------------
  // GROUP BY counts

  /** How many rows have key `k`. */
  function CountKey(rows: seq<Incident>, keyOf: Incident -> string, k: string): (n: nat)
    ensures n <= |rows|
    ensures n > 0 <==> exists i :: i in rows && keyOf(i) == k
  {
    if rows == [] then 0
    else
      assert forall i :: i in rows <==> i == rows[0] || i in rows[1..];
      (if keyOf(rows[0]) == k then 1 else 0) + CountKey(rows[1..], keyOf, k)
  }

  /** `$counts[$key] ?? 0`. */
  function CountOr0(m: map<string, nat>, k: string): nat
  {
    if k in m then m[k] else 0
  }

  /** `GROUP BY key` with `COUNT(*)`: keys with no rows are absent. */
  function CountBy(rows: seq<Incident>, keyOf: Incident -> string): (m: map<string, nat>)
    ensures forall k :: k in m <==> exists i :: i in rows && keyOf(i) == k
    ensures forall k :: CountOr0(m, k) == CountKey(rows, keyOf, k)
  {
    map k | k in (set i | i in rows :: keyOf(i)) :: CountKey(rows, keyOf, k)
  }

  function StatusValue(i: Incident): string { IncidentStatusEnum.Value(i.status) }
  function SeverityValue(i: Incident): string { i.severity }
  function CategoryValue(i: Incident): string { i.category }

  /** `getCountByStatus`, optionally scoped to a user. */
  function CountByStatus(rows: seq<Incident>, user: Option<Actor>): map<string, nat>
  {
    CountBy(Filter(rows, i => OptionalUserScope(user, i)), StatusValue)
  }

  /** `getCountBySeverity`, optionally scoped to a user. */
  function CountBySeverity(rows: seq<Incident>, user: Option<Actor>): map<string, nat>
  {
    CountBy(Filter(rows, i => OptionalUserScope(user, i)), SeverityValue)
  }

  /** `getCountByCategory`, optionally scoped to a user. */
  function CountByCategory(rows: seq<Incident>, user: Option<Actor>): map<string, nat>
  {
    CountBy(Filter(rows, i => OptionalUserScope(user, i)), CategoryValue)
  }

  /** The four per-status counts add up to the number of rows counted. */
  lemma {:induction false} StatusCountsAddUp(rows: seq<Incident>)
    ensures CountKey(rows, StatusValue, "open") + CountKey(rows, StatusValue, "investigating") +
            CountKey(rows, StatusValue, "resolved") + CountKey(rows, StatusValue, "closed") == |rows|
  {
    if rows != [] {
      StatusCountsAddUp(rows[1..]);
      CountKeyCons(rows, StatusValue, "open");
      CountKeyCons(rows, StatusValue, "investigating");
      CountKeyCons(rows, StatusValue, "resolved");
      CountKeyCons(rows, StatusValue, "closed");
      match rows[0].status
      case Open =>
      case Investigating =>
      case Resolved =>
      case Closed =>
    }
  }

  lemma CountKeyCons(rows: seq<Incident>, keyOf: Incident -> string, k: string)
    requires rows != []
    ensures CountKey(rows, keyOf, k) == (if keyOf(rows[0]) == k then 1 else 0) + CountKey(rows[1..], keyOf, k)
  {
  }

  // ---------------------------------------------------------------------
  // Row updates

  /** What `updateStatus` writes: the status, plus `resolved_at` (and the
      notes when they are truthy) on resolving, or `closed_at` on closing. */
  function WithStatus(i: Incident, status: IncidentStatus, notes: Option<string>, now: nat): (r: Incident)
    ensures r.status == status
    ensures status == Resolved ==> r.resolvedAt == Some(now) && r.closedAt == i.closedAt
    ensures status == Resolved ==> r.resolutionNotes == if PhpTruthy(notes) then notes else i.resolutionNotes
    ensures status == Closed ==> r == i.(status := Closed, closedAt := Some(now))
    ensures status in {Open, Investigating} ==> r == i.(status := status)
  {
    if status == Resolved then
      i.(status := status, resolvedAt := Some(now),
         resolutionNotes := if PhpTruthy(notes) then notes else i.resolutionNotes)
    else if status == Closed then i.(status := status, closedAt := Some(now))
    else i.(status := status)
  }

  /** Eloquent `update`: the row is written, and `updated_at` touched, only
      when some attribute actually changed. */
  function Saved(before: Incident, after: Incident, now: nat): (r: Incident)
    ensures after == before ==> r == before
    ensures after != before ==> r == after.(updatedAt := now)
  {
    if after == before then before else after.(updatedAt := now)
  }

  /** The editable columns of an incident, as keys of an update payload. */
  datatype EditField = Title | Description | Category | ImpactDescription | AffectedSystems | DueDate | ResolutionNotes

  /** A request value; `Null` is a key sent with a null value. */
  datatype FieldValue = Text(text: string) | Texts(items: seq<string>) | Day(day: nat) | Null

  /** The payload of `update`: column values plus the optional enum columns. */
  datatype UpdateData = UpdateData(fields: map<EditField, FieldValue>, severity: Option<string>, priority: Option<IncidentPriority>)
  {
    predicate IsEmpty() { fields == map[] && severity.None? && priority.None? }
  }

  /** Writes one column. A value of the wrong shape, which request
      validation refuses, leaves the row as it is. */
  function ApplyField(i: Incident, f: EditField, v: FieldValue): (r: Incident)
    ensures r.(title := i.title, description := i.description, category := i.category,
               impactDescription := i.impactDescription, affectedSystems := i.affectedSystems,
               dueDate := i.dueDate, resolutionNotes := i.resolutionNotes) == i
    ensures f != ResolutionNotes ==> r.resolutionNotes == i.resolutionNotes
  {
    match (f, v)
    case (Title, Text(s)) => i.(title := s)
    case (Description, Text(s)) => i.(description := s)
    case (Category, Text(s)) => i.(category := s)
    case (ImpactDescription, Text(s)) => i.(impactDescription := Some(s))
    case (ImpactDescription, Null) => i.(impactDescription := None)
    case (AffectedSystems, Texts(xs)) => i.(affectedSystems := Some(xs))
    case (AffectedSystems, Null) => i.(affectedSystems := None)
    case (DueDate, Day(d)) => i.(dueDate := Some(d))
    case (DueDate, Null) => i.(dueDate := None)
    case (ResolutionNotes, Text(s)) => i.(resolutionNotes := Some(s))
    case (ResolutionNotes, Null) => i.(resolutionNotes := None)
    case _ => i
  }

  const AllEditFields: seq<EditField> :=
    [Title, Description, Category, ImpactDescription, AffectedSystems, DueDate, ResolutionNotes]

  /** Writes, in order, each of the columns `fs` that the payload has a key for. */
  function ApplyFields(i: Incident, m: map<EditField, FieldValue>, fs: seq<EditField>): (r: Incident)
    decreases |fs|
  {
    if fs == [] then i
    else ApplyFields(if fs[0] in m then ApplyField(i, fs[0], m[fs[0]]) else i, m, fs[1..])
  }

  /** The row after `update($data)`, before the timestamp is touched. */
  function ApplyUpdate(i: Incident, d: UpdateData): (r: Incident)
  {
    var j := ApplyFields(i, d.fields, AllEditFields);
    var j := if d.severity.Some? then j.(severity := d.severity.value) else j;
    if d.priority.Some? then j.(priority := d.priority.value) else j
  }

  /** An edit only touches editable columns; without a `resolution_notes`
      key the notes stay as they are. */
  lemma {:induction false} ApplyFieldsKeepsOthers(i: Incident, m: map<EditField, FieldValue>, fs: seq<EditField>)
    decreases |fs|
    ensures var r := ApplyFields(i, m, fs);
      r.id == i.id && r.incidentNumber == i.incidentNumber && r.status == i.status &&
      r.severity == i.severity && r.priority == i.priority &&
      r.reportedBy == i.reportedBy && r.assignedTo == i.assignedTo &&
      r.resolvedAt == i.resolvedAt && r.closedAt == i.closedAt &&
      r.createdAt == i.createdAt && r.updatedAt == i.updatedAt
    ensures ResolutionNotes !in m ==> ApplyFields(i, m, fs).resolutionNotes == i.resolutionNotes
  {
    if fs != [] {
      var j := if fs[0] in m then ApplyField(i, fs[0], m[fs[0]]) else i;
      ApplyFieldsKeepsOthers(j, m, fs[1..]);
    }
  }

  lemma ApplyUpdateKeepsLifecycle(i: Incident, d: UpdateData)
    ensures var r := ApplyUpdate(i, d);
      r.id == i.id && r.incidentNumber == i.incidentNumber && r.status == i.status &&
      r.reportedBy == i.reportedBy && r.assignedTo == i.assignedTo &&
      r.resolvedAt == i.resolvedAt && r.closedAt == i.closedAt && r.createdAt == i.createdAt
    ensures ResolutionNotes !in d.fields ==> ApplyUpdate(i, d).resolutionNotes == i.resolutionNotes
  {
    var j := ApplyFields(i, d.fields, AllEditFields);
    ApplyFieldsKeepsOthers(i, d.fields, AllEditFields);
    var k := if d.severity.Some? then j.(severity := d.severity.value) else j;
    assert ApplyUpdate(i, d) == if d.priority.Some? then k.(priority := d.priority.value) else k;
  }

  /** The attributes of a new row as the service passes them. */
  datatype NewIncident = NewIncident(
    incidentNumber: string,
    title: string,
    description: string,
    severity: string,
    priority: IncidentPriority,
    category: string,
    reportedBy: nat,
    impactDescription: Option<string>,
    affectedSystems: Option<seq<string>>,
    dueDate: Option<nat>)

  function NumbersOf(rows: seq<Incident>): (r: seq<string>)
    ensures |r| == |rows|
    ensures forall k :: 0 <= k < |rows| ==> r[k] == rows[k].incidentNumber
  {
    seq(|rows|, k requires 0 <= k < |rows| => rows[k].incidentNumber)
  }

  /** The row with the given id, if any. */
  function IndexOfId(rows: seq<Incident>, id: nat): (r: Option<nat>)
    ensures r.Some? ==> r.value < |rows| && rows[r.value].id == id
    ensures r.None? ==> forall k :: 0 <= k < |rows| ==> rows[k].id != id
  {
    if rows == [] then None
    else if rows[0].id == id then Some(0)
    else
      var r := IndexOfId(rows[1..], id);
      if r.Some? then Some(r.value + 1) else None
  }

  class IncidentRepository {
    var rows: seq<Incident>
    /** The auto-increment counter of the `id` column. */
    var nextId: nat

    /** Ids are below the counter and distinct; incident numbers are distinct
        (the unique index on `incident_number`). */
    ghost predicate Valid()
      reads this
    {
      (forall k :: 0 <= k < |rows| ==> rows[k].id < nextId) &&
      (forall j, k :: 0 <= j < k < |rows| ==> rows[j].id != rows[k].id) &&
      (forall j, k :: 0 <= j < k < |rows| ==> rows[j].incidentNumber != rows[k].incidentNumber)
    }

    constructor ()
      ensures Valid() && rows == [] && nextId == 1
    {
      rows := [];
      nextId := 1;
    }

    /**
     * `create`: an empty number is generated; a taken number is refused by
     * the unique index and nothing is written. New rows start open.
     */
    method Create(data: NewIncident, date: string, now: nat) returns (r: Option<Incident>)
      requires Valid()
      modifies this
      ensures Valid()
      ensures PhpEmpty(Some(data.incidentNumber)) ==> r.Some?
      ensures r.None? <==> data.incidentNumber in NumbersOf(old(rows)) && !PhpEmpty(Some(data.incidentNumber))
      ensures r.None? ==> rows == old(rows) && nextId == old(nextId)
      ensures r.Some? ==>
        r.value == Incident(old(nextId), CreatingHook(data.incidentNumber, date, NumbersOf(old(rows))),
                            data.title, data.description, data.severity, Open, data.priority, data.category,
                            data.reportedBy, None, data.dueDate, None, None, None,
                            data.impactDescription, data.affectedSystems, now, now) &&
        rows == old(rows) + [r.value] && nextId == old(nextId) + 1
    {
      var numbers := NumbersOf(rows);
      var number := CreatingHook(data.incidentNumber, date, numbers);
      if number in numbers {
        r := None;
        return;
      }
      var i := Incident(nextId, number, data.title, data.description, data.severity, Open, data.priority,
                        data.category, data.reportedBy, None, data.dueDate, None, None, None,
                        data.impactDescription, data.affectedSystems, now, now);
      rows := rows + [i];
      nextId := nextId + 1;
      r := Some(i);
    }

    /** `updateStatus` on the row at index `k`. */
    method UpdateStatus(k: nat, status: IncidentStatus, notes: Option<string>, now: nat)
      requires Valid() && k < |rows|
      modifies this
      ensures Valid() && nextId == old(nextId)
      ensures rows == old(rows)[k := Saved(old(rows)[k], WithStatus(old(rows)[k], status, notes, now), now)]
    {
      rows := rows[k := Saved(rows[k], WithStatus(rows[k], status, notes, now), now)];
    }

    /** `assign`: sets `assigned_to` (None unassigns) and nothing else. */
    method Assign(k: nat, operatorId: Option<nat>, now: nat)
      requires Valid() && k < |rows|
      modifies this
      ensures Valid() && nextId == old(nextId)
      ensures rows == old(rows)[k := Saved(old(rows)[k], old(rows)[k].(assignedTo := operatorId), now)]
    {
      rows := rows[k := Saved(rows[k], rows[k].(assignedTo := operatorId), now)];
    }

    /** `update` with a payload of editable columns. */
    method Update(k: nat, data: UpdateData, now: nat)
      requires Valid() && k < |rows|
      modifies this
      ensures Valid() && nextId == old(nextId)
      ensures rows == old(rows)[k := Saved(old(rows)[k], ApplyUpdate(old(rows)[k], data), now)]
    {
      ApplyUpdateKeepsLifecycle(rows[k], data);
      rows := rows[k := Saved(rows[k], ApplyUpdate(rows[k], data), now)];
    }

    /** `delete`: the row is removed. */
    method Delete(k: nat)
      requires Valid() && k < |rows|
      modifies this
      ensures Valid() && nextId == old(nextId)
      ensures rows == old(rows)[..k] + old(rows)[k + 1..]
    {
      rows := rows[..k] + rows[k + 1..];
    }
  }
}
