/**
 * The incident record, its status accessors, the visibility rule and the
 * query scopes, read as predicates over single rows.
 */
module IncidentModel {
  import opened Common
  import opened IncidentStatusEnum
  import opened IncidentPriorityEnum
  import UserModel
  import IncidentNumber

  const SecondsPerDay: nat := 86400
  const SecondsPerHour: nat := 3600

  /** The calendar day (days since the epoch) of a timestamp in seconds. */
  function DateOf(ts: nat): nat
  {
    ts / SecondsPerDay
  }

  /**
   * One row of `incidents`. Timestamps are seconds; `dueDate` is a day
   * number. The severity column holds one of low/medium/high/critical.
   */
  datatype Incident = Incident(
    id: nat,
    incidentNumber: string,
    title: string,
    description: string,
    severity: string,
    status: IncidentStatus,
    priority: IncidentPriority,
    category: string,
    reportedBy: nat,
    assignedTo: Option<nat>,
    dueDate: Option<nat>,
    resolvedAt: Option<nat>,
    closedAt: Option<nat>,
    resolutionNotes: Option<string>,
    impactDescription: Option<string>,
    affectedSystems: Option<seq<string>>,
    createdAt: nat,
    updatedAt: nat)

  /** The keys of `Incident::getCategories()`, in order. */
  const Categories: seq<string> :=
    ["network", "security", "hardware", "software", "database", "application", "infrastructure", "other"]

  predicate IsOpen(i: Incident) { i.status == Open }
  predicate IsClosed(i: Incident) { i.status == Closed }

  /** Resolved or closed: the incident needs no more work. */
  predicate IsResolved(i: Incident)
  {
    i.status in {Resolved, Closed}
  }

  /** The `Unresolved` scope: status is neither resolved nor closed. */
  predicate Unresolved(i: Incident)
  {
    IncidentStatusEnum.Value(i.status) !in [IncidentStatusEnum.Value(Resolved), IncidentStatusEnum.Value(Closed)]
  }

  lemma UnresolvedIsComplement(i: Incident)
    ensures Unresolved(i) <==> !IsResolved(i)
    ensures Unresolved(i) <==> i.status in {Open, Investigating}
  {
    assert IncidentStatusEnum.Value(Open) == "open" && IncidentStatusEnum.Value(Investigating) == "investigating";
  }

  /** `canBeViewedBy`: admins see everything; an operator sees what is assigned
      to them; anyone sees what they reported. */
  predicate CanBeViewedBy(i: Incident, user: UserModel.Actor)
  {
    if UserModel.IsAdmin(user.role) then true
    else if UserModel.IsOperator(user.role) && i.assignedTo == Some(user.id) then true
    else if i.reportedBy == user.id then true
    else false
  }

  // ---------------------------------------------------------------------
  // Scopes

  predicate StatusScope(i: Incident, status: string) { IncidentStatusEnum.Value(i.status) == status }
  predicate SeverityScope(i: Incident, severity: string) { i.severity == severity }
  predicate PriorityScope(i: Incident, priority: string) { IncidentPriorityEnum.Value(i.priority) == priority }
  predicate CategoryScope(i: Incident, category: string) { i.category == category }
  predicate AssignedToScope(i: Incident, userId: nat) { i.assignedTo == Some(userId) }
  predicate ReportedByScope(i: Incident, userId: nat) { i.reportedBy == userId }

  /** `Search`: the term occurs in the title, the description or the number. */
  predicate SearchScope(i: Incident, term: string)
  {
    Contains(i.title, term) || Contains(i.description, term) || Contains(i.incidentNumber, term)
  }

  lemma SearchFindsSubstring(i: Incident, term: string)
    ensures SearchScope(i, term) <==>
              (exists k: nat :: OccursAt(i.title, term, k)) ||
              (exists k: nat :: OccursAt(i.description, term, k)) ||
              (exists k: nat :: OccursAt(i.incidentNumber, term, k))
  {
    ContainsIff(i.title, term);
    ContainsIff(i.description, term);
    ContainsIff(i.incidentNumber, term);
  }

  /**
   * `DateRange` over day numbers; `None` stands for an empty bound. A lone
   * `from` selects that exact day; otherwise each present bound is inclusive.
   */
  predicate DateRangeScope(i: Incident, from: Option<nat>, to: Option<nat>)
  {
    if from.Some? && to.None? then DateOf(i.createdAt) == from.value
    else
      (from.Some? ==> DateOf(i.createdAt) >= from.value) &&
      (to.Some? ==> DateOf(i.createdAt) <= to.value)
  }

  lemma DateRangeCases(i: Incident, from: Option<nat>, to: Option<nat>)
    ensures from.Some? && to.None? ==> (DateRangeScope(i, from, to) <==> DateOf(i.createdAt) == from.value)
    ensures from.Some? && to.Some? ==>
              (DateRangeScope(i, from, to) <==> from.value <= DateOf(i.createdAt) <= to.value)
    ensures from.None? && to.Some? ==> (DateRangeScope(i, from, to) <==> DateOf(i.createdAt) <= to.value)
    ensures from.None? && to.None? ==> DateRangeScope(i, from, to)
  {
  }

  /** `AtRisk`: unresolved and not touched for more than `hours` hours before `now`. */
  predicate AtRiskScope(i: Incident, hours: nat, now: nat)
  {
    Unresolved(i) && i.updatedAt < now - hours * SecondsPerHour
  }

  /** The default threshold of `AtRisk`. */
  const DefaultAtRiskHours: nat := 24

  /**
   * The `creating` hook: a supplied number is kept; an empty one (PHP
   * `empty`, so also "0") is replaced by a fresh number for today.
   */
  function CreatingHook(number: string, date: string, existing: seq<string>): (r: string)
    ensures !PhpEmpty(Some(number)) ==> r == number
    ensures PhpEmpty(Some(number)) ==> StartsWith(r, IncidentNumber.Prefix(date)) && r !in existing
  {
    if PhpEmpty(Some(number)) then IncidentNumber.NextIncidentNumber(date, existing) else number
  }
}
