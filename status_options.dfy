/**
 * The status choices the web client offers for an incident: the next step
 * of the lifecycle, as a label and the value sent to the server. The list
 * page and the detail page each carry an identical copy of this table.
 */
module StatusOptions {
  import opened Common
  import opened IncidentStatusEnum

  /** One choice: `name` is the option's `label` (a reserved word here), `value` the status sent. */
  datatype StatusOption = StatusOption(name: string, value: string)

  /** `getNextStatuses`, keyed on the status value the server sent. */
  function NextStatuses(current: string): (r: seq<StatusOption>)
    ensures FromValue(current).None? ==> r == []
    ensures FromValue(current).Some? ==>
      var s := FromValue(current).value;
      |r| == |ValidTransitions(s)| &&
      forall k :: 0 <= k < |r| ==>
        r[k] == StatusOption(Label(ValidTransitions(s)[k]), IncidentStatusEnum.Value(ValidTransitions(s)[k]))
  {
    if current == "open" then [StatusOption("Investigating", "investigating")]
    else if current == "investigating" then [StatusOption("Resolved", "resolved")]
    else if current == "resolved" then [StatusOption("Closed", "closed")]
    else []
  }

  /** Every offered value names a status the server accepts as the next step;
      nothing is offered for a closed incident. */
  lemma OfferedIsAllowed(current: string, k: nat)
    requires k < |NextStatuses(current)|
    ensures var t := FromValue(NextStatuses(current)[k].value);
      FromValue(current).Some? && t.Some? && CanTransitionTo(FromValue(current).value, t.value)
  {
    var s := FromValue(current).value;
    ValueRoundTrip(ValidTransitions(s)[k]);
  }

  /** Conversely, every move the server allows is offered. */
  lemma AllowedIsOffered(s: IncidentStatus, t: IncidentStatus)
    requires CanTransitionTo(s, t)
    ensures StatusOption(Label(t), IncidentStatusEnum.Value(t)) in NextStatuses(IncidentStatusEnum.Value(s))
  {
    ValueRoundTrip(s);
  }

  lemma ClosedOffersNothing()
    ensures NextStatuses("closed") == []
  {
  }
}
