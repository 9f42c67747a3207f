/** Priority of an incident; `weight` orders the four levels. */
module IncidentPriorityEnum {
  import opened Common

  datatype IncidentPriority = Low | Normal | High | Urgent

  const Cases: seq<IncidentPriority> := [Low, Normal, High, Urgent]

  function Value(p: IncidentPriority): string
  {
    match p
    case Low => "low"
    case Normal => "normal"
    case High => "high"
    case Urgent => "urgent"
  }

  function Label(p: IncidentPriority): (r: string)
    ensures r != "" && r[0] != Value(p)[0] && r[1..] == Value(p)[1..]
  {
    match p
    case Low => "Low"
    case Normal => "Normal"
    case High => "High"
    case Urgent => "Urgent"
  }

  function Color(p: IncidentPriority): (r: string)
    ensures r in {"green", "yellow", "orange", "red"}
  {
    match p
    case Low => "green"
    case Normal => "yellow"
    case High => "orange"
    case Urgent => "red"
  }

  /** The weight is the 1-based position in declaration order. */
  function Weight(p: IncidentPriority): (w: int)
    ensures 1 <= w <= |Cases| && Cases[w - 1] == p
  {
    match p
    case Low => 1
    case Normal => 2
    case High => 3
    case Urgent => 4
  }

  function Values(): (r: seq<string>)
    ensures r == ["low", "normal", "high", "urgent"]
  {
    seq(|Cases|, i requires 0 <= i < |Cases| => Value(Cases[i]))
  }

  function FromValue(v: string): (r: Option<IncidentPriority>)
    ensures r.Some? <==> v in Values()
    ensures r.Some? ==> Value(r.value) == v
  {
    if v == "low" then Some(Low)
    else if v == "normal" then Some(Normal)
    else if v == "high" then Some(High)
    else if v == "urgent" then Some(Urgent)
    else None
  }

  /** Weights strictly increase in declaration order, so they are distinct. */
  lemma WeightIncreasing(i: nat, j: nat)
    requires i < j < |Cases|
    ensures Weight(Cases[i]) < Weight(Cases[j])
  {
  }
}

/** The kinds of entries in an incident's audit trail. */
module ActionTypeEnum {
  datatype ActionType = StatusChange | Comment | Assignment | PriorityChange | SeverityChange | Edit

  const Cases: seq<ActionType> := [StatusChange, Comment, Assignment, PriorityChange, SeverityChange, Edit]

  /** The values allowed by the `action_type` column of `incident_updates`. */
  const ColumnValues: seq<string> :=
    ["status_change", "comment", "assignment", "priority_change", "severity_change", "edit"]

  function Value(a: ActionType): string
  {
    match a
    case StatusChange => "status_change"
    case Comment => "comment"
    case Assignment => "assignment"
    case PriorityChange => "priority_change"
    case SeverityChange => "severity_change"
    case Edit => "edit"
  }

  function Label(a: ActionType): string
  {
    match a
    case StatusChange => "Status Changed"
    case Comment => "Comment Added"
    case Assignment => "Assignment Changed"
    case PriorityChange => "Priority Changed"
    case SeverityChange => "Severity Changed"
    case Edit => "Incident Edited"
  }

  function Icon(a: ActionType): string
  {
    match a
    case StatusChange => "arrow-right-circle"
    case Comment => "message-circle"
    case Assignment => "user-plus"
    case PriorityChange => "flag"
    case SeverityChange => "alert-triangle"
    case Edit => "edit"
  }

  /** Six cases whose values are exactly the column's allowed values, in order. */
  function Values(): (r: seq<string>)
    ensures |r| == 6 && r == ColumnValues
  {
    seq(|Cases|, i requires 0 <= i < |Cases| => Value(Cases[i]))
  }

  lemma EveryCaseListed(a: ActionType)
    ensures a in Cases
  {
  }

  lemma LabelInjective(a: ActionType, b: ActionType)
    requires Label(a) == Label(b)
    ensures a == b
  {
  }

  lemma IconInjective(a: ActionType, b: ActionType)
    requires Icon(a) == Icon(b)
    ensures a == b
  {
  }
}

/** The three account roles. */
module UserRoleEnum {
  import opened Common

  datatype UserRole = Reporter | Operator | Admin

  const Cases: seq<UserRole> := [Reporter, Operator, Admin]

  function Value(r: UserRole): string
  {
    match r
    case Reporter => "reporter"
    case Operator => "operator"
    case Admin => "admin"
  }

  function Label(r: UserRole): string
  {
    match r
    case Reporter => "Reporter"
    case Operator => "Operator"
    case Admin => "Administrator"
  }

  function Values(): (r: seq<string>)
    ensures r == ["reporter", "operator", "admin"]
  {
    seq(|Cases|, i requires 0 <= i < |Cases| => Value(Cases[i]))
  }

  function FromValue(v: string): (r: Option<UserRole>)
    ensures r.Some? <==> v in Values()
    ensures r.Some? ==> Value(r.value) == v
  {
    if v == "reporter" then Some(Reporter)
    else if v == "operator" then Some(Operator)
    else if v == "admin" then Some(Admin)
    else None
  }

  lemma LabelInjective(a: UserRole, b: UserRole)
    requires Label(a) == Label(b)
    ensures a == b
  {
  }
}
