/**
 * The dashboard's integer figures: the role-dependent counters, the two
 * fixed-order breakdowns, the gap-filled daily trend and the risk level of
 * an escalation alert.
 */
module DashboardService {
  import opened Common
  import opened IncidentStatusEnum
  import opened UserRoleEnum
  import opened UserModel
  import opened IncidentModel
  import opened IncidentRepository
  import UserService
  import IncidentService

  // ---------------------------------------------------------------------
  // Risk level

  datatype RiskLevel = Medium | High | Critical
  {
    function Value(): string
    {
      match this
      case Medium => "medium"
      case High => "high"
      case Critical => "critical"
    }

    /** Position in the order medium < high < critical. */
    function Rank(): nat
    {
      match this
      case Medium => 0
      case High => 1
      case Critical => 2
    }
  }

  /**
   * `calculateRiskLevel`: critical past two days, or past eight hours for
   * the heaviest severity; high past a day, or past twelve hours from
   * weight 3 up; medium otherwise. `severityWeight` is the severity's weight.
   */
  function CalculateRiskLevel(severityWeight: int, hoursSinceUpdate: int): (r: RiskLevel)
    ensures r == Critical <==> hoursSinceUpdate > 48 || (severityWeight >= 4 && hoursSinceUpdate > 8)
    ensures r == High <==> r != Critical && (hoursSinceUpdate > 24 || (severityWeight >= 3 && hoursSinceUpdate > 12))
    ensures hoursSinceUpdate <= 8 ==> r == Medium
  {
    if hoursSinceUpdate > 48 || (severityWeight >= 4 && hoursSinceUpdate > 8) then Critical
    else if hoursSinceUpdate > 24 || (severityWeight >= 3 && hoursSinceUpdate > 12) then High
    else Medium
  }

  /** The risk never falls as time passes, nor as the severity gets heavier. */
  lemma RiskIsMonotonic(w1: int, w2: int, h1: int, h2: int)
    requires w1 <= w2 && h1 <= h2
    ensures CalculateRiskLevel(w1, h1).Rank() <= CalculateRiskLevel(w2, h2).Rank()
  {
  }

  /** Whatever the severity: past 48 hours critical, past 24 at least high. */
  lemma RiskByTimeAlone(w: int, h: int)
    ensures h > 48 ==> CalculateRiskLevel(w, h) == Critical
    ensures h > 24 ==> CalculateRiskLevel(w, h).Rank() >= 1
    ensures w < 3 && h <= 24 ==> CalculateRiskLevel(w, h) == Medium
  {
  }

  /**
   * `diffInHours` from `from` to `to` as Carbon 3 returns it: a signed,
   * fractional number of hours, positive when `to` is later.
   */
  function FractionalHours(from: nat, to: nat): (h: real)
    ensures h * 3600.0 == (to as int - from as int) as real
    ensures from <= to <==> h >= 0.0
  {
    (to as int - from as int) as real / 3600.0
  }

  /** PHP's `(int)` cast of a float: truncation toward zero. */
  function TruncateToInt(x: real): (n: int)
    ensures x >= 0.0 ==> n >= 0 && n as real <= x < n as real + 1.0
    ensures x < 0.0 ==> n <= 0 && n as real - 1.0 < x <= n as real
  {
    if x >= 0.0 then x.Floor else -((-x).Floor)
  }

  /** The whole hours between two timestamps, either order: the value
      `calculateRiskLevel` receives through its `int` parameter. */
  function HoursBetween(from: nat, to: nat): (h: nat)
    ensures from <= to ==> h * SecondsPerHour <= to - from < (h + 1) * SecondsPerHour
    ensures to <= from ==> h * SecondsPerHour <= from - to < (h + 1) * SecondsPerHour
  {
    if from <= to then (to - from) / SecondsPerHour else (from - to) / SecondsPerHour
  }

  datatype EscalationAlert = EscalationAlert(
    id: nat,
    incidentNumber: string,
    title: string,
    severity: string,
    status: string,
    assignedTo: string,
    hoursSinceUpdate: real,
    riskLevel: RiskLevel)

  /** The assignee column of an alert when nobody (known) is assigned. */
  const Unassigned: string := "Unassigned"

  /** Truncating the fractional hours of a past update gives the whole hours. */
  lemma {:induction false} WholePartOfHours(from: nat, to: nat)
    requires from <= to
    ensures TruncateToInt(FractionalHours(from, to)) == HoursBetween(from, to)
  {
    var x := FractionalHours(from, to);
    var n := TruncateToInt(x);
    var h := HoursBetween(from, to);
    assert n as real * 3600.0 <= x * 3600.0 < (n as real + 1.0) * 3600.0;
    assert n * 3600 <= to - from < (n + 1) * 3600;
    assert h * 3600 <= to - from < (h + 1) * 3600;
  }

  /**
   * The alert for one incident: its identifying columns, the assignee's
   * name or "Unassigned", the fractional hours since its last update, and
   * the risk of their whole part. `names` maps user ids to names.
   */
  function AlertFor(i: Incident, now: nat, severityWeight: string -> int, names: map<nat, string>): (a: EscalationAlert)
    ensures a.id == i.id && a.incidentNumber == i.incidentNumber && a.title == i.title
    ensures a.severity == i.severity && a.status == IncidentStatusEnum.Value(i.status)
    ensures i.assignedTo.Some? && i.assignedTo.value in names ==> a.assignedTo == names[i.assignedTo.value]
    ensures !(i.assignedTo.Some? && i.assignedTo.value in names) ==> a.assignedTo == Unassigned
    ensures a.hoursSinceUpdate * 3600.0 == (now as int - i.updatedAt as int) as real
    ensures a.riskLevel == CalculateRiskLevel(severityWeight(i.severity), TruncateToInt(a.hoursSinceUpdate))
    ensures i.updatedAt <= now ==> a.riskLevel == CalculateRiskLevel(severityWeight(i.severity), HoursBetween(i.updatedAt, now))
  {
    var h := FractionalHours(i.updatedAt, now);
    if i.updatedAt <= now then
      WholePartOfHours(i.updatedAt, now);
      EscalationAlert(i.id, i.incidentNumber, i.title, i.severity, IncidentStatusEnum.Value(i.status),
                      IncidentService.NameOf(names, i.assignedTo).GetOr(Unassigned),
                      h, CalculateRiskLevel(severityWeight(i.severity), TruncateToInt(h)))
    else
    EscalationAlert(i.id, i.incidentNumber, i.title, i.severity, IncidentStatusEnum.Value(i.status),
                    IncidentService.NameOf(names, i.assignedTo).GetOr(Unassigned),
                    h, CalculateRiskLevel(severityWeight(i.severity), TruncateToInt(h)))
  }

  /** An incident at risk under a threshold has gone more than that many
      hours without an update, and at least that many whole hours. */
  lemma AtRiskHours(i: Incident, hours: nat, now: nat, severityWeight: string -> int, names: map<nat, string>)
    requires AtRiskScope(i, hours, now)
    ensures AlertFor(i, now, severityWeight, names).hoursSinceUpdate > hours as real
    ensures TruncateToInt(AlertFor(i, now, severityWeight, names).hoursSinceUpdate) >= hours
  {
    var x := AlertFor(i, now, severityWeight, names).hoursSinceUpdate;
    assert (now - i.updatedAt) as real > (hours * SecondsPerHour) as real;
    assert x * 3600.0 > hours as real * 3600.0;
    var n := TruncateToInt(x);
    assert x < n as real + 1.0;
  }

  /** `getEscalationAlerts`: one alert per at-risk incident, in the same order. */
  function GetEscalationAlerts(rows: seq<Incident>, hoursThreshold: nat, now: nat, severityWeight: string -> int, names: map<nat, string>)
    : (r: seq<EscalationAlert>)
    ensures |r| == |GetAtRisk(rows, hoursThreshold, now)|
    ensures forall k :: 0 <= k < |r| ==> r[k] == AlertFor(GetAtRisk(rows, hoursThreshold, now)[k], now, severityWeight, names)
  {
    var atRisk := GetAtRisk(rows, hoursThreshold, now);
    seq(|atRisk|, k requires 0 <= k < |atRisk| => AlertFor(atRisk[k], now, severityWeight, names))
  }

  /** Every alert is about an incident at risk, and reports at least the threshold in hours. */
  lemma AlertsPastThreshold(rows: seq<Incident>, hoursThreshold: nat, now: nat, severityWeight: string -> int, names: map<nat, string>)
    ensures forall a :: a in GetEscalationAlerts(rows, hoursThreshold, now, severityWeight, names) ==>
      a.hoursSinceUpdate > hoursThreshold as real && TruncateToInt(a.hoursSinceUpdate) >= hoursThreshold &&
      exists i :: i in rows && AtRiskScope(i, hoursThreshold, now) && a.id == i.id
  {
    var atRisk := GetAtRisk(rows, hoursThreshold, now);
    var r := GetEscalationAlerts(rows, hoursThreshold, now, severityWeight, names);
    forall a | a in r
      ensures a.hoursSinceUpdate > hoursThreshold as real && TruncateToInt(a.hoursSinceUpdate) >= hoursThreshold
      ensures exists i :: i in rows && AtRiskScope(i, hoursThreshold, now) && a.id == i.id
    {
      var k :| 0 <= k < |r| && r[k] == a;
      assert atRisk[k] in atRisk;
      AtRiskHours(atRisk[k], hoursThreshold, now, severityWeight, names);
    }
  }

  /** With a threshold over 48 hours every alert is critical. */
  lemma LongThresholdAllCritical(rows: seq<Incident>, hoursThreshold: nat, now: nat, severityWeight: string -> int, names: map<nat, string>)
    requires hoursThreshold > 48
    ensures forall a :: a in GetEscalationAlerts(rows, hoursThreshold, now, severityWeight, names) ==> a.riskLevel == Critical
  {
    AlertsPastThreshold(rows, hoursThreshold, now, severityWeight, names);
  }

  // ---------------------------------------------------------------------
  // Counters

  /**
   * The `$stats` array. The three counters that only some roles get are
   * `None` when the key is absent; `my_assigned` is always present.
   */
  datatype DashboardStats = DashboardStats(
    totalIncidents: nat,
    openIncidents: nat,
    investigatingIncidents: nat,
    resolvedIncidents: nat,
    closedIncidents: nat,
    criticalIncidents: nat,
    myAssigned: nat,
    myReported: Option<nat>,
    totalUsers: Option<nat>,
    atRiskCount: Option<nat>)

  /** The only keys `getCountByStatus` can return are the four status values. */
  lemma StatusKeysKnown(rows: seq<Incident>, user: Option<Actor>)
    ensures forall k :: k in CountByStatus(rows, user) ==> k in {"open", "investigating", "resolved", "closed"}
  {
  }

  /** Unscoped, `getCountBy*` counts every row. */
  lemma UnscopedCountsAll(rows: seq<Incident>)
    ensures Filter(rows, i => OptionalUserScope(None, i)) == rows
  {
    FilterKeepsAll(rows, i => OptionalUserScope(None, i));
  }

  /** Unscoped, the status count of `k` is the number of rows in status `k`, 0 for none. */
  lemma StatusCount(rows: seq<Incident>, k: string)
    ensures CountOr0(CountByStatus(rows, None), k) == CountKey(rows, StatusValue, k)
  {
    UnscopedCountsAll(rows);
  }

  /** Unscoped, the severity count of `k` is the number of rows of severity `k`, 0 for none. */
  lemma SeverityCount(rows: seq<Incident>, k: string)
    ensures CountOr0(CountBySeverity(rows, None), k) == CountKey(rows, SeverityValue, k)
  {
    UnscopedCountsAll(rows);
  }

  /**
   * `getStats`: status and severity counts over all incidents whoever asks;
   * `my_assigned` for operators (0 for others), `my_reported` for reporters,
   * and the active-user and at-risk counts for admins. `array_sum` of the
   * status counts is the sum of the four status values, the only keys.
   */
  method GetStats(incidents: seq<Incident>, users: seq<UserState>, user: Actor, now: nat) returns (stats: DashboardStats)
    ensures stats.totalIncidents == |incidents|
    ensures stats.totalIncidents ==
      stats.openIncidents + stats.investigatingIncidents + stats.resolvedIncidents + stats.closedIncidents
    ensures stats.openIncidents == CountKey(incidents, StatusValue, "open")
    ensures stats.investigatingIncidents == CountKey(incidents, StatusValue, "investigating")
    ensures stats.resolvedIncidents == CountKey(incidents, StatusValue, "resolved")
    ensures stats.closedIncidents == CountKey(incidents, StatusValue, "closed")
    ensures stats.criticalIncidents == CountKey(incidents, SeverityValue, "critical")
    ensures user.role == Operator ==>
      stats.myAssigned == |Filter(incidents, i => AssignedToScope(i, user.id) && Unresolved(i))|
    ensures user.role != Operator ==> stats.myAssigned == 0
    ensures stats.myReported.Some? <==> user.role == Reporter
    ensures stats.myReported.Some? ==> stats.myReported.value == |Filter(incidents, i => ReportedByScope(i, user.id))|
    ensures stats.totalUsers.Some? <==> user.role == Admin
    ensures stats.totalUsers.Some? ==> stats.totalUsers.value == |Filter(users, UserService.IsActiveUser)|
    ensures stats.atRiskCount.Some? <==> user.role == Admin
    ensures stats.atRiskCount.Some? ==>
      stats.atRiskCount.value == |Filter(incidents, i => AtRiskScope(i, DefaultAtRiskHours, now))|
  {
    stats := DashboardStats(0, 0, 0, 0, 0, 0, 0, None, None, None);
    var statusCounts := CountByStatus(incidents, None);
    stats := stats.(openIncidents := CountOr0(statusCounts, "open"));
    stats := stats.(investigatingIncidents := CountOr0(statusCounts, "investigating"));
    stats := stats.(resolvedIncidents := CountOr0(statusCounts, "resolved"));
    stats := stats.(closedIncidents := CountOr0(statusCounts, "closed"));
    StatusCount(incidents, "open");
    StatusCount(incidents, "investigating");
    StatusCount(incidents, "resolved");
    StatusCount(incidents, "closed");
    stats := stats.(totalIncidents := stats.openIncidents + stats.investigatingIncidents +
                                      stats.resolvedIncidents + stats.closedIncidents);
    StatusCountsAddUp(incidents);

    var severityCounts := CountBySeverity(incidents, None);
    stats := stats.(criticalIncidents := CountOr0(severityCounts, "critical"));
    SeverityCount(incidents, "critical");

    if user.role == Operator {
      stats := stats.(myAssigned := |GetAssignedTo(incidents, user.id, None)|);
    } else if user.role == Reporter {
      stats := stats.(myReported := Some(|Filter(incidents, i => ReportedByScope(i, user.id))|));
    }

    if user.role == Admin {
      stats := stats.(totalUsers := Some(|Filter(users, UserService.IsActiveUser)|));
      stats := stats.(atRiskCount := Some(|GetAtRisk(incidents, DefaultAtRiskHours, now)|));
    }
  }

  // ---------------------------------------------------------------------
  // Breakdowns

  /** One slice of a chart: its label, its count and its colour. */
  datatype Slice = Slice(name: string, value: nat, color: string)

  const SeverityNames: seq<string> := ["Low", "Medium", "High", "Critical"]
  const SeverityKeys: seq<string> := ["low", "medium", "high", "critical"]
  const SeverityColors: seq<string> := ["#22c55e", "#eab308", "#f97316", "#ef4444"]
  const StatusNames: seq<string> := ["Open", "Investigating", "Resolved", "Closed"]
  const StatusKeys: seq<string> := ["open", "investigating", "resolved", "closed"]
  const StatusColors: seq<string> := ["#ef4444", "#eab308", "#3b82f6", "#22c55e"]

  /** The four severity slices, lowest first, read off the grouped counts. */
  function SeveritySlices(counts: map<string, nat>): (r: seq<Slice>)
    ensures |r| == 4
    ensures forall k :: 0 <= k < 4 ==> r[k] == Slice(SeverityNames[k], CountOr0(counts, SeverityKeys[k]), SeverityColors[k])
  {
    [Slice("Low", CountOr0(counts, "low"), "#22c55e"),
     Slice("Medium", CountOr0(counts, "medium"), "#eab308"),
     Slice("High", CountOr0(counts, "high"), "#f97316"),
     Slice("Critical", CountOr0(counts, "critical"), "#ef4444")]
  }

  /** `getSeverityBreakdown`: the four severities, lowest first, 0 for none. */
  function GetSeverityBreakdown(rows: seq<Incident>): (r: seq<Slice>)
    ensures |r| == 4
    ensures forall k :: 0 <= k < 4 ==>
      r[k] == Slice(SeverityNames[k], CountKey(rows, SeverityValue, SeverityKeys[k]), SeverityColors[k])
  {
    forall k | 0 <= k < 4
      ensures CountOr0(CountBySeverity(rows, None), SeverityKeys[k]) == CountKey(rows, SeverityValue, SeverityKeys[k])
    {
      SeverityCount(rows, SeverityKeys[k]);
    }
    SeveritySlices(CountBySeverity(rows, None))
  }

  /** The four status slices, in lifecycle order, read off the grouped counts. */
  function StatusSlices(counts: map<string, nat>): (r: seq<Slice>)
    ensures |r| == 4
    ensures forall k :: 0 <= k < 4 ==> r[k] == Slice(StatusNames[k], CountOr0(counts, StatusKeys[k]), StatusColors[k])
  {
    [Slice("Open", CountOr0(counts, "open"), "#ef4444"),
     Slice("Investigating", CountOr0(counts, "investigating"), "#eab308"),
     Slice("Resolved", CountOr0(counts, "resolved"), "#3b82f6"),
     Slice("Closed", CountOr0(counts, "closed"), "#22c55e")]
  }

  /** `getStatusDistribution`: the four statuses in lifecycle order, 0 for none. */
  function GetStatusDistribution(rows: seq<Incident>): (r: seq<Slice>)
    ensures |r| == 4
    ensures forall k :: 0 <= k < 4 ==>
      r[k] == Slice(StatusNames[k], CountKey(rows, StatusValue, StatusKeys[k]), StatusColors[k])
  {
    forall k | 0 <= k < 4
      ensures CountOr0(CountByStatus(rows, None), StatusKeys[k]) == CountKey(rows, StatusValue, StatusKeys[k])
    {
      StatusCount(rows, StatusKeys[k]);
    }
    StatusSlices(CountByStatus(rows, None))
  }

  function SliceTotal(r: seq<Slice>): nat
  {
    if r == [] then 0 else r[0].value + SliceTotal(r[1..])
  }

  lemma SliceTotalOfFour(r: seq<Slice>)
    requires |r| == 4
    ensures SliceTotal(r) == r[0].value + r[1].value + r[2].value + r[3].value
  {
    assert SliceTotal(r[3..]) == r[3].value + SliceTotal([]);
    assert SliceTotal(r[2..]) == r[2].value + SliceTotal(r[3..]);
    assert SliceTotal(r[1..]) == r[1].value + SliceTotal(r[2..]);
  }

  /** Every incident falls in exactly one slice of the status chart. */
  lemma StatusSlicesCoverAll(rows: seq<Incident>)
    ensures SliceTotal(GetStatusDistribution(rows)) == |rows|
  {
    var r := GetStatusDistribution(rows);
    StatusCountsAddUp(rows);
    SliceTotalOfFour(r);
  }

  /** A severity the column admits. */
  predicate KnownSeverity(i: Incident)
  {
    i.severity in {"low", "medium", "high", "critical"}
  }

  lemma {:induction false} SeverityCountsAddUp(rows: seq<Incident>)
    requires forall i :: i in rows ==> KnownSeverity(i)
    ensures CountKey(rows, SeverityValue, "low") + CountKey(rows, SeverityValue, "medium") +
            CountKey(rows, SeverityValue, "high") + CountKey(rows, SeverityValue, "critical") == |rows|
  {
    if rows != [] {
      assert rows[0] in rows;
      assert forall i :: i in rows[1..] ==> i in rows;
      SeverityCountsAddUp(rows[1..]);
    }
  }

  /** When every severity is one the column admits, the severity chart covers every incident. */
  lemma SeveritySlicesCoverAll(rows: seq<Incident>)
    requires forall i :: i in rows ==> KnownSeverity(i)
    ensures SliceTotal(GetSeverityBreakdown(rows)) == |rows|
  {
    var r := GetSeverityBreakdown(rows);
    SeverityCountsAddUp(rows);
    SliceTotalOfFour(r);
  }

  // ---------------------------------------------------------------------
  // Trends

  /** How many rows created at or after `cutoff` fall on day `d`. */
  function TrendCount(rows: seq<Incident>, cutoff: int, d: int): (n: nat)
    ensures n <= |rows|
    ensures n > 0 <==> exists i :: i in rows && i.createdAt >= cutoff && DateOf(i.createdAt) == d
  {
    if rows == [] then 0
    else
      assert forall i :: i in rows <==> i == rows[0] || i in rows[1..];
      (if rows[0].createdAt >= cutoff && DateOf(rows[0].createdAt) == d then 1 else 0) + TrendCount(rows[1..], cutoff, d)
  }

  /** How many rows were created on day `d`. */
  function DayCount(rows: seq<Incident>, d: int): (n: nat)
    ensures n <= |rows|
  {
    if rows == [] then 0
    else (if DateOf(rows[0].createdAt) == d then 1 else 0) + DayCount(rows[1..], d)
  }

  /** A day that starts at or after the cutoff is counted whole. */
  lemma {:induction false} WholeDayCounted(rows: seq<Incident>, cutoff: int, d: int)
    requires d * SecondsPerDay >= cutoff
    ensures TrendCount(rows, cutoff, d) == DayCount(rows, d)
  {
    if rows != [] {
      WholeDayCounted(rows[1..], cutoff, d);
    }
  }

  /** The grouped query of `getTrends`: day to count, for rows since `cutoff`. */
  function TrendQuery(rows: seq<Incident>, cutoff: int): (m: map<int, nat>)
    ensures forall d :: d in m <==> exists i :: i in rows && i.createdAt >= cutoff && DateOf(i.createdAt) == d
    ensures forall d :: d in m ==> m[d] == TrendCount(rows, cutoff, d)
  {
    map d | d in (set i | i in rows && i.createdAt >= cutoff :: DateOf(i.createdAt) as int) :: TrendCount(rows, cutoff, d)
  }

  /** `$trends[$date] ?? 0`. */
  function TrendLookup(m: map<int, nat>, d: int): nat
  {
    if d in m then m[d] else 0
  }

  datatype TrendPoint = TrendPoint(date: int, count: nat)

  /**
   * `getTrends(days)`: one point per day for the last `days` days, oldest
   * first and ending today, each with the number of incidents created that
   * day (0 when there were none). Days are numbered from the epoch.
   */
  method GetTrends(rows: seq<Incident>, days: int, now: nat) returns (r: seq<TrendPoint>)
    ensures |r| == if days > 0 then days else 0
    ensures forall k :: 0 <= k < |r| ==> r[k].date == DateOf(now) - |r| + 1 + k
    ensures forall k :: 0 <= k < |r| ==> r[k].count == DayCount(rows, r[k].date)
  {
    var trends := TrendQuery(rows, now - days * SecondsPerDay);
    r := [];
    var i := days - 1;
    while i >= 0
      invariant i < days
      invariant days > 0 ==> i >= -1
      invariant days <= 0 ==> r == []
      invariant |r| == days - 1 - i
      invariant forall k :: 0 <= k < |r| ==> r[k].date == DateOf(now) - (days - 1) + k
      invariant forall k :: 0 <= k < |r| ==> r[k].count == DayCount(rows, r[k].date)
    {
      var date := DateOf(now) - i;
      assert date * SecondsPerDay >= now - days * SecondsPerDay;
      WholeDayCounted(rows, now - days * SecondsPerDay, date);
      r := r + [TrendPoint(date, TrendLookup(trends, date))];
      i := i - 1;
    }
  }

  /** Consecutive points are consecutive days. */
  lemma TrendDaysConsecutive(r: seq<TrendPoint>, today: int)
    requires forall k :: 0 <= k < |r| ==> r[k].date == today - |r| + 1 + k
    ensures forall k :: 0 <= k < |r| - 1 ==> r[k + 1].date == r[k].date + 1
    ensures |r| > 0 ==> r[|r| - 1].date == today
  {
  }
}
