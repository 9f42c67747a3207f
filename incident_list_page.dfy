/**
 * The incident list page of the web client: its page arithmetic and the
 * "update status" dialog.
 */
module IncidentListPage {
  import opened Common
  import opened StatusOptions
  import IncidentStatusEnum
  import Pagination

  // ---------------------------------------------------------------------
  // Page arithmetic; `perPage` is the page size the server reports.

  /** `Math.max(1, Math.ceil(total / perPage))`. */
  function TotalPages(total: nat, perPage: nat): (r: nat)
    requires perPage > 0
    ensures r >= 1
    ensures total <= r * perPage
    ensures total > 0 ==> (r - 1) * perPage < total
    ensures total == 0 ==> r == 1
  {
    var ceil := (total + perPage - 1) / perPage;
    if ceil < 1 then 1 else ceil
  }

  /** The position of the first item shown, counting from 1; 0 when empty. */
  function From(total: nat, page: int, perPage: nat): int
  {
    if total == 0 then 0 else (page - 1) * perPage + 1
  }

  /** The position of the last item shown. */
  function To(total: nat, page: int, perPage: nat): int
  {
    if total <= page * perPage then total else page * perPage
  }

  /** On any existing page of a non-empty list, "Showing from-to" is a
      non-empty range of at most one page, within the list. */
  lemma ShowingRangeIsAPage(total: nat, page: int, perPage: nat)
    requires perPage > 0 && total > 0 && 1 <= page <= TotalPages(total, perPage)
    ensures 1 <= From(total, page, perPage) <= To(total, page, perPage) <= total
    ensures To(total, page, perPage) - From(total, page, perPage) < perPage
  {
    var t := TotalPages(total, perPage);
    assert (page - 1) * perPage <= (t - 1) * perPage by {
      MultiplyMonotone(page - 1, t - 1, perPage);
    }
  }

  lemma MultiplyMonotone(a: int, b: int, n: nat)
    requires 0 <= a <= b
    ensures a * n <= b * n
  {
  }

  /** Consecutive pages continue one another: nothing is skipped or shown twice. */
  lemma PagesAreContiguous(total: nat, page: int, perPage: nat)
    requires perPage > 0 && 1 <= page < TotalPages(total, perPage)
    ensures From(total, page + 1, perPage) == To(total, page, perPage) + 1
  {
    var t := TotalPages(total, perPage);
    assert page * perPage <= (t - 1) * perPage by {
      MultiplyMonotone(page, t - 1, perPage);
    }
  }

  predicate HasNextPage(page: int, totalPages: nat) { page < totalPages }
  predicate HasPreviousPage(page: int) { page > 1 }

  /** From an existing page, Prev and Next only ever ask for existing pages. */
  lemma PagerStaysInRange(page: int, totalPages: nat)
    requires 1 <= page <= totalPages
    ensures var p := Pagination.PrevTarget(page, HasPreviousPage(page));
      p.Some? ==> 1 <= p.value <= totalPages
    ensures var n := Pagination.NextTarget(page, HasNextPage(page, totalPages));
      n.Some? ==> 1 <= n.value <= totalPages
    ensures Pagination.PrevTarget(page, HasPreviousPage(page)).None? <==> page == 1
    ensures Pagination.NextTarget(page, HasNextPage(page, totalPages)).None? <==> page == totalPages
  {
  }

  // ---------------------------------------------------------------------
  // The status dialog

  /** What the dialog sends: the incident, the status, the note and the
      resolution notes (left out when empty). */
  datatype StatusRequest = StatusRequest(incidentId: nat, status: string, comment: string, resolutionNotes: Option<string>)

  const ProvideStatusAndNote := "Please provide a status and update note."
  const ResolutionNotesRequired := "Resolution notes are required for this status."

  /** Resolving and closing need resolution notes. */
  predicate NeedsResolutionNotes(status: string)
  {
    status == "resolved" || status == "closed"
  }

  /** The dialog's state: the incident it is open for and the three fields. */
  class StatusDialog {
    var target: Option<nat>
    var statusValue: string
    var comment: string
    var resolutionNotes: string

    constructor()
      ensures target == None && statusValue == "" && comment == "" && resolutionNotes == ""
    {
      target := None;
      statusValue := "";
      comment := "";
      resolutionNotes := "";
    }

    /**
     * `handleOpenStatusModal`: opens for the incident, preselects the first
     * next status (none for a closed incident) and clears both texts.
     */
    method Open(incidentId: nat, currentStatus: string)
      modifies this
      ensures target == Some(incidentId) && comment == "" && resolutionNotes == ""
      ensures var next := NextStatuses(currentStatus);
        statusValue == if next == [] then "" else next[0].value
    {
      target := Some(incidentId);
      var next := NextStatuses(currentStatus);
      statusValue := if next == [] then "" else next[0].value;
      comment := "";
      resolutionNotes := "";
    }

    /** The user edits the fields. */
    method Edit(status: string, note: string, notes: string)
      modifies this
      ensures target == old(target)
      ensures statusValue == status && comment == note && resolutionNotes == notes
    {
      statusValue := status;
      comment := note;
      resolutionNotes := notes;
    }

    /**
     * `handleUpdateStatus` before the request: refuses without an incident,
     * a status or a note, then a resolving or closing status without notes;
     * otherwise gives the request to send.
     */
    method Submit() returns (r: Result<StatusRequest, string>)
      ensures r == Err(ProvideStatusAndNote) <==> target.None? || statusValue == "" || IsBlank(comment)
      ensures r == Err(ResolutionNotesRequired) <==>
        target.Some? && statusValue != "" && !IsBlank(comment) &&
        NeedsResolutionNotes(statusValue) && IsBlank(resolutionNotes)
      ensures r.Ok? <==>
        target.Some? && statusValue != "" && !IsBlank(comment) &&
        !(NeedsResolutionNotes(statusValue) && IsBlank(resolutionNotes))
      ensures r.Ok? ==>
                r.value.incidentId == target.value && r.value.status == statusValue &&
                r.value.comment == comment && !IsBlank(comment) &&
                (r.value.resolutionNotes.None? <==> resolutionNotes == "") &&
                (NeedsResolutionNotes(statusValue) ==> r.value.resolutionNotes.Some? && !IsBlank(r.value.resolutionNotes.value))
    {
      if target.None? || statusValue == "" || IsBlank(comment) {
        return Err(ProvideStatusAndNote);
      }
      if NeedsResolutionNotes(statusValue) && IsBlank(resolutionNotes) {
        return Err(ResolutionNotesRequired);
      }
      r := Ok(StatusRequest(target.value, statusValue, comment,
                            if resolutionNotes == "" then None else Some(resolutionNotes)));
    }

    /** After a successful update the dialog closes. */
    method Close()
      modifies this
      ensures target == None
      ensures statusValue == old(statusValue) && comment == old(comment) && resolutionNotes == old(resolutionNotes)
    {
      target := None;
    }
  }

  /** Opened on an incident that can still move, the dialog can be submitted
      as soon as a note is typed, with the preselected status a legal step. */
  lemma OpenedDialogPreselectsLegalStep(currentStatus: string)
    requires NextStatuses(currentStatus) != []
    ensures var v := NextStatuses(currentStatus)[0].value;
      v != "" && IncidentStatusEnum.FromValue(currentStatus).Some? &&
      IncidentStatusEnum.FromValue(v).Some? &&
      IncidentStatusEnum.CanTransitionTo(IncidentStatusEnum.FromValue(currentStatus).value, IncidentStatusEnum.FromValue(v).value)
  {
    OfferedIsAllowed(currentStatus, 0);
  }
}
