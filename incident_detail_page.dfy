/**
 * The incident detail page of the web client: the status form's checks,
 * the activity timeline and the links to attachments.
 */
module IncidentDetailPage {
  import opened Common
  import opened AppConfig
  import opened Urls
  import IncidentNumber
  import IncidentListPage

  // ---------------------------------------------------------------------
  // The status form

  /** What submitting the form does: nothing (no incident id in the route),
      an error toast, or the request to send. */
  datatype SubmitOutcome = Ignored | Refused(message: string) | Send(status: string, comment: string, resolutionNotes: Option<string>)

  const AddAnUpdateNote := "Please add an update note."

  /**
   * `handleStatusUpdate` before the request: a blank note is refused, then a
   * resolving or closing status without resolution notes.
   */
  function SubmitStatus(id: Option<string>, status: string, comment: string, resolutionNotes: string)
    : (r: SubmitOutcome)
    ensures r == Ignored <==> !JsTruthy(id)
    ensures r == Refused(AddAnUpdateNote) <==> JsTruthy(id) && IsBlank(comment)
    ensures r == Refused(IncidentListPage.ResolutionNotesRequired) <==>
      JsTruthy(id) && !IsBlank(comment) && IncidentListPage.NeedsResolutionNotes(status) && IsBlank(resolutionNotes)
    ensures r.Send? <==>
      JsTruthy(id) && !IsBlank(comment) && !(IncidentListPage.NeedsResolutionNotes(status) && IsBlank(resolutionNotes))
    ensures r.Send? ==>
              r.status == status && r.comment == comment &&
              (r.resolutionNotes.None? <==> resolutionNotes == "") &&
              (r.resolutionNotes.Some? ==> r.resolutionNotes.value == resolutionNotes)
  {
    if !JsTruthy(id) then Ignored
    else if IsBlank(comment) then Refused(AddAnUpdateNote)
    else if IncidentListPage.NeedsResolutionNotes(status) && IsBlank(resolutionNotes) then
      Refused(IncidentListPage.ResolutionNotesRequired)
    else Send(status, comment, if resolutionNotes == "" then None else Some(resolutionNotes))
  }

  // ---------------------------------------------------------------------
  // The activity timeline

  /** A timeline entry as the client receives it; `createdAt` is the raw
      timestamp text, if any. */
  datatype TimelineEntry = TimelineEntry(id: nat, isInternal: bool, createdAt: Option<string>)

  /** `getTime`: the parsed timestamp in milliseconds, 0 when missing or
      unparseable. `parse` stands for `Date.parse`, `None` for NaN. */
  function GetTime(value: Option<string>, parse: string -> Option<int>): int
  {
    if !JsTruthy(value) then 0
    else if parse(value.value).Some? then parse(value.value).value
    else 0
  }

  /** The order of the timeline: newest first, then highest id first. */
  function TimelineKey(parse: string -> Option<int>): TimelineEntry -> SortKey
  {
    (e: TimelineEntry) => SortKey(GetTime(e.createdAt, parse), e.id)
  }

  predicate CanManage(role: Option<string>)
  {
    role == Some("admin") || role == Some("operator")
  }

  predicate IsPublic(e: TimelineEntry) { !e.isInternal }

  /** The entries the viewer may see: all of them for staff, the public
      ones for everyone else. */
  function Shown(updates: seq<TimelineEntry>, role: Option<string>): (r: seq<TimelineEntry>)
    ensures CanManage(role) ==> r == updates
    ensures !CanManage(role) ==> multiset(r) == multiset(Filter(updates, IsPublic))
  {
    if CanManage(role) then updates else Filter(updates, IsPublic)
  }

  /**
   * `visibleUpdates`: the shown entries in a sorted copy; the list received
   * is a value here, so it cannot be changed by the sort.
   */
  function VisibleUpdates(updates: seq<TimelineEntry>, role: Option<string>, parse: string -> Option<int>)
    : (r: seq<TimelineEntry>)
    ensures multiset(r) == multiset(Shown(updates, role))
    ensures SortedDesc(r, TimelineKey(parse))
    ensures !CanManage(role) ==> forall e :: e in r ==> !e.isInternal
    ensures forall e :: e in r <==> e in updates && (CanManage(role) || !e.isInternal)
  {
    var shown := Shown(updates, role);
    var r := SortDesc(shown, TimelineKey(parse));
    SameMembers(r, shown);
    r
  }

  /** Staff see every entry; a reporter's timeline has exactly the public
      entries, each as many times as it was sent. */
  lemma TimelineIsAPermutation(updates: seq<TimelineEntry>, role: Option<string>, parse: string -> Option<int>)
    ensures CanManage(role) ==> multiset(VisibleUpdates(updates, role, parse)) == multiset(updates)
    ensures !CanManage(role) ==>
              forall e :: multiset(VisibleUpdates(updates, role, parse))[e] ==
                          if e.isInternal then 0 else multiset(updates)[e]
  {
  }

  // ---------------------------------------------------------------------
  // Attachment links

  /** An attachment as the client receives it; every field but the id may
      be absent. */
  datatype AttachmentLink = AttachmentLink(id: nat, fileName: Option<string>, name: Option<string>,
                                           url: Option<string>, filePath: Option<string>)

  /** `split('/').pop()`: what follows the last '/', or the whole path. */
  function LastSegment(p: string): (r: string)
    ensures |r| <= |p| && r == p[|p| - |r|..]
    ensures forall k :: 0 <= k < |r| ==> r[k] != '/'
    ensures |r| < |p| ==> p[|p| - |r| - 1] == '/'
  {
    if p == [] || p[|p| - 1] == '/' then []
    else
      var r := LastSegment(p[..|p| - 1]);
      r + [p[|p| - 1]]
  }

  /** `file_name ?? name ?? last segment of file_path`: the first field that
      is present, even when it is "". */
  function DisplayName(a: AttachmentLink): Option<string>
  {
    if a.fileName.Some? then a.fileName
    else if a.name.Some? then a.name
    else if a.filePath.Some? then Some(LastSegment(a.filePath.value))
    else None
  }

  /** The server's download route for the attachment. */
  function DownloadUrl(c: Config, id: nat): string
  {
    c.sanctumBaseUrl + "/attachments/" + IncidentNumber.Digits(id) + "/download"
  }

  /**
   * `getAttachmentViewUrl`: the attachment's own url (made absolute against
   * the API host with one '/' between), else the file under the storage
   * address, else the download route.
   */
  function AttachmentViewUrl(a: AttachmentLink, c: Config): (r: string)
    ensures JsTruthy(a.url) && IsAbsolute(a.url.value) ==> r == a.url.value
    ensures JsTruthy(a.url) && !IsAbsolute(a.url.value) ==>
              exists rel :: r == c.sanctumBaseUrl + "/" + rel &&
                (if a.url.value[0] == '/' then a.url.value == "/" + rel else a.url.value == rel)
    ensures !JsTruthy(a.url) && JsTruthy(DisplayName(a)) ==> r == c.storageBaseUrl + "/" + DisplayName(a).value
    ensures !JsTruthy(a.url) && !JsTruthy(DisplayName(a)) ==> r == DownloadUrl(c, a.id)
  {
    if JsTruthy(a.url) then
      var u := a.url.value;
      if IsAbsolute(u) then u
      else
        var sep := if StartsWith(u, "/") then "" else "/";
        assert StartsWith(u, "/") ==> u == "/" + u[1..] && c.sanctumBaseUrl + sep + u == c.sanctumBaseUrl + "/" + u[1..];
        c.sanctumBaseUrl + sep + u
    else
      var fileName := DisplayName(a);
      if JsTruthy(fileName) then c.storageBaseUrl + "/" + fileName.value
      else DownloadUrl(c, a.id)
  }

  /** Without a url, the stored file name wins over the display name and the
      path; an empty stored file name is kept by `??` and so leads to the
      download route, whatever the other fields hold. */
  lemma FallbackOrder(a: AttachmentLink, c: Config)
    requires !JsTruthy(a.url)
    ensures JsTruthy(a.fileName) ==> AttachmentViewUrl(a, c) == c.storageBaseUrl + "/" + a.fileName.value
    ensures a.fileName == Some("") ==> AttachmentViewUrl(a, c) == DownloadUrl(c, a.id)
    ensures a.fileName.None? && JsTruthy(a.name) ==> AttachmentViewUrl(a, c) == c.storageBaseUrl + "/" + a.name.value
    ensures a.fileName.None? && a.name.None? && a.filePath.Some? && LastSegment(a.filePath.value) != "" ==>
              AttachmentViewUrl(a, c) == c.storageBaseUrl + "/" + LastSegment(a.filePath.value)
  {
  }

  /** A path ending in '/' has no last segment, so it falls back to the
      download route. */
  lemma TrailingSlashPathDownloads(a: AttachmentLink, c: Config)
    requires !JsTruthy(a.url) && a.fileName.None? && a.name.None?
    requires a.filePath.Some? && |a.filePath.value| > 0 && a.filePath.value[|a.filePath.value| - 1] == '/'
    ensures AttachmentViewUrl(a, c) == DownloadUrl(c, a.id)
  {
  }
}
