/**
 * The lifecycle of an incident: open -> investigating -> resolved -> closed,
 * a strict chain with no skipping, no way back and a terminal `closed`.
 */
module IncidentStatusEnum {
  import opened Common

  datatype IncidentStatus = Open | Investigating | Resolved | Closed

  /** The cases in declaration order. */
  const Cases: seq<IncidentStatus> := [Open, Investigating, Resolved, Closed]

  /** The backing value stored in the `status` column. */
  function Value(s: IncidentStatus): string
  {
    match s
    case Open => "open"
    case Investigating => "investigating"
    case Resolved => "resolved"
    case Closed => "closed"
  }

  function Label(s: IncidentStatus): (r: string)
    ensures r != "" && r[0] != Value(s)[0] && r[1..] == Value(s)[1..]
  {
    match s
    case Open => "Open"
    case Investigating => "Investigating"
    case Resolved => "Resolved"
    case Closed => "Closed"
  }

  function Color(s: IncidentStatus): string
  {
    match s
    case Open => "red"
    case Investigating => "yellow"
    case Resolved => "blue"
    case Closed => "green"
  }

  /** Position of a status in the declared chain. */
  function Rank(s: IncidentStatus): (r: nat)
    ensures r < |Cases| && Cases[r] == s
  {
    match s
    case Open => 0
    case Investigating => 1
    case Resolved => 2
    case Closed => 3
  }

  /** `IncidentStatus::values()`: the backing values in declaration order. */
  function Values(): (r: seq<string>)
    ensures r == ["open", "investigating", "resolved", "closed"]
  {
    seq(|Cases|, i requires 0 <= i < |Cases| => Value(Cases[i]))
  }

  /** `IncidentStatus::tryFrom`: the status with the given backing value, if any. */
  function FromValue(v: string): (r: Option<IncidentStatus>)
    ensures r.Some? <==> v in Values()
    ensures r.Some? ==> Value(r.value) == v
  {
    if v == "open" then Some(Open)
    else if v == "investigating" then Some(Investigating)
    else if v == "resolved" then Some(Resolved)
    else if v == "closed" then Some(Closed)
    else None
  }

  lemma ValueRoundTrip(s: IncidentStatus)
    ensures FromValue(Value(s)) == Some(s)
  {
  }

  function ValidTransitions(s: IncidentStatus): (r: seq<IncidentStatus>)
    ensures |r| <= 1
    ensures s !in r
  {
    match s
    case Open => [Investigating]
    case Investigating => [Resolved]
    case Resolved => [Closed]
    case Closed => []
  }

  /** A move is allowed exactly when it advances one step along the chain. */
  predicate CanTransitionTo(s: IncidentStatus, target: IncidentStatus)
    ensures CanTransitionTo(s, target) <==> Rank(target) == Rank(s) + 1
  {
    target in ValidTransitions(s)
  }

  /** Exactly three pairs are allowed. */
  lemma ExactlyThreeTransitions(s: IncidentStatus, t: IncidentStatus)
    ensures CanTransitionTo(s, t) <==>
              (s == Open && t == Investigating) ||
              (s == Investigating && t == Resolved) ||
              (s == Resolved && t == Closed)
  {
  }

  lemma ClosedIsTerminal(t: IncidentStatus)
    ensures ValidTransitions(Closed) == []
    ensures !CanTransitionTo(Closed, t)
  {
  }

  /** No backward move and no skipping ahead. */
  lemma NoBackwardNoSkip(s: IncidentStatus, t: IncidentStatus)
    requires Rank(t) <= Rank(s) || Rank(t) > Rank(s) + 1
    ensures !CanTransitionTo(s, t)
  {
  }

  lemma LabelInjective(a: IncidentStatus, b: IncidentStatus)
    requires Label(a) == Label(b)
    ensures a == b
  {
  }
}
