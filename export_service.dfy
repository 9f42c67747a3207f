/**
 * The CSV exports: which incidents and users are exported, and the cells
 * of each line. Streaming, chunking and CSV quoting are not modelled: an
 * export is its list of lines, each a list of cells. Timestamps are
 * formatted by `fmt`, which stands for `format('Y-m-d H:i:s')`.
 */
module ExportService {
  import opened Common
  import opened IncidentStatusEnum
  import opened IncidentPriorityEnum
  import opened UserRoleEnum
  import opened UserModel
  import opened IncidentModel
  import opened IncidentRepository
  import IncidentNumber

  // ---------------------------------------------------------------------
  // Incidents

  /** `applyIncidentFilters`: each non-empty filter is one conjunct; the
      date bounds are each inclusive, whether the other is given or not. */
  predicate ExportMatches(f: IncidentFilters, i: Incident)
  {
    StringFilter(f.status, s => StatusScope(i, s)) &&
    StringFilter(f.severity, s => SeverityScope(i, s)) &&
    StringFilter(f.priority, p => PriorityScope(i, p)) &&
    StringFilter(f.category, c => CategoryScope(i, c)) &&
    StringFilter(f.search, t => SearchScope(i, t)) &&
    (f.fromDate.Some? ==> DateOf(i.createdAt) >= f.fromDate.value) &&
    (f.toDate.Some? ==> DateOf(i.createdAt) <= f.toDate.value) &&
    (IdGiven(f.assignedTo) ==> AssignedToScope(i, f.assignedTo.value)) &&
    (IdGiven(f.reportedBy) ==> ReportedByScope(i, f.reportedBy.value))
  }

  /**
   * The export and the listings agree on every filter set except a lone
   * `from_date`: there the export takes that day and every later one,
   * the listing that day only.
   */
  lemma ExportAndListingFilters(f: IncidentFilters, i: Incident)
    ensures !(f.fromDate.Some? && f.toDate.None?) ==> (ExportMatches(f, i) <==> MatchesFilters(f, i))
    ensures MatchesFilters(f, i) ==> ExportMatches(f, i)
    ensures f == NoFilters.(fromDate := f.fromDate) && f.fromDate.Some? ==>
      (ExportMatches(f, i) <==> DateOf(i.createdAt) >= f.fromDate.value) &&
      (MatchesFilters(f, i) <==> DateOf(i.createdAt) == f.fromDate.value)
  {
  }

  const IncidentHeader: seq<string> := [
    "Incident Number", "Title", "Description", "Severity", "Status", "Priority", "Category",
    "Reporter", "Assigned To", "Impact Description", "Resolution Notes", "Created At",
    "Resolved At", "Closed At"]

  /** The name of the user `id`, or `fallback` when there is no such user. */
  function NameOr(names: map<nat, string>, id: Option<nat>, fallback: string): string
  {
    if id.Some? && id.value in names then names[id.value] else fallback
  }

  /** A timestamp column: formatted, or "" when null. */
  function TimeOr(ts: Option<nat>, fmt: nat -> string): string
  {
    if ts.Some? then fmt(ts.value) else ""
  }

  /** The cells of one incident, column by column under the header. */
  function IncidentRow(i: Incident, names: map<nat, string>, fmt: nat -> string): (r: seq<string>)
    ensures |r| == |IncidentHeader|
    ensures r[0] == i.incidentNumber && r[1] == i.title && r[2] == i.description
    ensures r[4] == IncidentStatusEnum.Value(i.status) && r[5] == IncidentPriorityEnum.Value(i.priority)
    ensures r[7] == (if i.reportedBy in names then names[i.reportedBy] else "")
    ensures i.assignedTo.Some? && i.assignedTo.value in names ==> r[8] == names[i.assignedTo.value]
    ensures i.assignedTo.None? || i.assignedTo.value !in names ==> r[8] == "Unassigned"
    ensures i.resolvedAt.None? ==> r[12] == ""
    ensures i.closedAt.None? ==> r[13] == ""
    ensures i.resolvedAt.Some? ==> r[12] == fmt(i.resolvedAt.value)
    ensures i.closedAt.Some? ==> r[13] == fmt(i.closedAt.value)
  {
    [i.incidentNumber, i.title, i.description, i.severity, IncidentStatusEnum.Value(i.status),
     IncidentPriorityEnum.Value(i.priority), i.category,
     NameOr(names, Some(i.reportedBy), ""), NameOr(names, i.assignedTo, "Unassigned"),
     Str(i.impactDescription), Str(i.resolutionNotes), fmt(i.createdAt),
     TimeOr(i.resolvedAt, fmt), TimeOr(i.closedAt, fmt)]
  }

  /** The incidents the export writes, newest first. */
  function ExportedIncidents(rows: seq<Incident>, f: IncidentFilters, user: Option<Actor>): (r: seq<Incident>)
    ensures forall i :: i in r <==> i in rows && OptionalUserScope(user, i) && ExportMatches(f, i)
    ensures multiset(r) == multiset(Filter(rows, i => OptionalUserScope(user, i) && ExportMatches(f, i)))
    ensures SortedDesc(r, (i: Incident) => SortKey(i.createdAt, 0))
    ensures |r| <= |rows|
  {
    var picked := Filter(rows, i => OptionalUserScope(user, i) && ExportMatches(f, i));
    var r := SortDesc(picked, (i: Incident) => SortKey(i.createdAt, 0));
    SameMembers(r, picked);
    r
  }

  /** One line per incident, in the given order. */
  function IncidentLines(picked: seq<Incident>, names: map<nat, string>, fmt: nat -> string)
    : (r: seq<seq<string>>)
    ensures |r| == |picked|
    ensures forall k :: 0 <= k < |r| ==> r[k] == IncidentRow(picked[k], names, fmt)
  {
    seq(|picked|, k requires 0 <= k < |picked| => IncidentRow(picked[k], names, fmt))
  }

  /**
   * `exportIncidents`: the header, then one line per exported incident,
   * in the export's order. `names` maps user ids to names.
   */
  function ExportIncidents(rows: seq<Incident>, f: IncidentFilters, user: Option<Actor>,
                           names: map<nat, string>, fmt: nat -> string): (r: seq<seq<string>>)
    ensures |r| == 1 + |ExportedIncidents(rows, f, user)|
    ensures r[0] == IncidentHeader
    ensures r[1..] == IncidentLines(ExportedIncidents(rows, f, user), names, fmt)
  {
    [IncidentHeader] + IncidentLines(ExportedIncidents(rows, f, user), names, fmt)
  }

  /** Every incident in scope and matching the filters has its line in the
      export (the converse is `ExportedIncidents`' own contract). */
  lemma ExportIncidentsComplete(rows: seq<Incident>, f: IncidentFilters, user: Option<Actor>,
                                names: map<nat, string>, fmt: nat -> string, i: Incident)
    requires i in rows && OptionalUserScope(user, i) && ExportMatches(f, i)
    ensures IncidentRow(i, names, fmt) in ExportIncidents(rows, f, user, names, fmt)[1..]
  {
    var picked := ExportedIncidents(rows, f, user);
    var k :| 0 <= k < |picked| && picked[k] == i;
    assert IncidentLines(picked, names, fmt)[k] == IncidentRow(i, names, fmt);
  }

  // ---------------------------------------------------------------------
  // Users

  /** The user export filters; `None` is a key absent or null. */
  datatype UserFilters = UserFilters(role: Option<string>, status: Option<string>, search: Option<string>)

  /**
   * `applyUserFilters`: a non-empty role is matched; a status that is set at
   * all selects the active accounts when it is "active" and the inactive
   * ones otherwise; a non-empty search is a substring of name or e-mail.
   */
  predicate UserExportMatches(f: UserFilters, u: UserState)
  {
    StringFilter(f.role, r => UserRoleEnum.Value(u.role) == r) &&
    (f.status.Some? ==> u.isActive == (f.status.value == "active")) &&
    StringFilter(f.search, t => Contains(u.name, t) || Contains(u.email, t))
  }

  /** The status filter is `isset`, not `empty`: an empty or unknown status
      string still filters, and selects the inactive accounts. */
  lemma AnyOtherStatusMeansInactive(f: UserFilters, u: UserState)
    requires f.status.Some? && f.status.value != "active"
    requires UserExportMatches(f, u)
    ensures !u.isActive
  {
  }

  const UserHeader: seq<string> := ["ID", "Name", "Email", "Role", "Phone", "Status", "Last Login", "Created At"]

  /** The cells of one account; `createdAt` is its `created_at`. */
  function UserRow(u: UserState, createdAt: nat, fmt: nat -> string): (r: seq<string>)
    ensures |r| == |UserHeader|
    ensures AllDigits(r[0]) && IncidentNumber.DigitsValue(r[0]) == u.id
    ensures r[5] == (if u.isActive then "Active" else "Inactive")
    ensures r[6] == (if u.lastLoginAt.None? then "Never" else fmt(u.lastLoginAt.value))
    ensures u.phone.None? ==> r[4] == ""
  {
    [IncidentNumber.Digits(u.id), u.name, u.email, UserRoleEnum.Value(u.role), Str(u.phone),
     if u.isActive then "Active" else "Inactive",
     if u.lastLoginAt.Some? then fmt(u.lastLoginAt.value) else "Never",
     fmt(createdAt)]
  }

  /** The accounts the user export writes, newest first. */
  function ExportedUsers(users: seq<UserState>, f: UserFilters, createdAt: nat -> nat): (r: seq<UserState>)
    ensures forall u :: u in r <==> u in users && UserExportMatches(f, u)
    ensures multiset(r) == multiset(Filter(users, u => UserExportMatches(f, u)))
    ensures SortedDesc(r, (u: UserState) => SortKey(createdAt(u.id), 0))
  {
    var picked := Filter(users, u => UserExportMatches(f, u));
    var r := SortDesc(picked, (u: UserState) => SortKey(createdAt(u.id), 0));
    SameMembers(r, picked);
    r
  }

  /** One line per account, in the given order. */
  function UserLines(picked: seq<UserState>, createdAt: nat -> nat, fmt: nat -> string): (r: seq<seq<string>>)
    ensures |r| == |picked|
    ensures forall k :: 0 <= k < |r| ==> r[k] == UserRow(picked[k], createdAt(picked[k].id), fmt)
  {
    seq(|picked|, k requires 0 <= k < |picked| => UserRow(picked[k], createdAt(picked[k].id), fmt))
  }

  /**
   * `exportUsers`: the header, then one line per matching account, newest
   * first. `createdAt` gives each account's `created_at` by id.
   */
  function ExportUsers(users: seq<UserState>, f: UserFilters, createdAt: nat -> nat, fmt: nat -> string)
    : (r: seq<seq<string>>)
    ensures |r| == 1 + |ExportedUsers(users, f, createdAt)|
    ensures r[0] == UserHeader
    ensures r[1..] == UserLines(ExportedUsers(users, f, createdAt), createdAt, fmt)
  {
    [UserHeader] + UserLines(ExportedUsers(users, f, createdAt), createdAt, fmt)
  }

  /** Every matching account has its line in the user export. */
  lemma ExportUsersComplete(users: seq<UserState>, f: UserFilters, createdAt: nat -> nat,
                            fmt: nat -> string, u: UserState)
    requires u in users && UserExportMatches(f, u)
    ensures UserRow(u, createdAt(u.id), fmt) in ExportUsers(users, f, createdAt, fmt)[1..]
  {
    var picked := ExportedUsers(users, f, createdAt);
    var k :| 0 <= k < |picked| && picked[k] == u;
    assert UserLines(picked, createdAt, fmt)[k] == UserRow(u, createdAt(u.id), fmt);
  }
}
