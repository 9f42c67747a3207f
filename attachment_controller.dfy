/**
 * Files attached to incidents: who may list, upload, download and delete
 * them, and what an upload records. Storage itself is not modelled; a
 * stored file is known by the path the disk returned for it.
 */
module AttachmentController {
  import opened Common
  import opened UserRoleEnum
  import opened UserModel
  import opened IncidentModel
  import opened IncidentRepository
  import opened Http

  /** One row of `incident_attachments`; `fileSize` is in bytes. */
  datatype Attachment = Attachment(
    id: nat,
    incidentId: nat,
    uploadedBy: nat,
    fileName: string,
    filePath: string,
    fileType: string,
    fileSize: nat)

  /** An uploaded file as the request carries it. */
  datatype Upload = Upload(clientName: string, mimeType: string, size: nat)

  /** The `max:10240` rule: kilobytes of 1024 bytes. */
  const MaxUploadKilobytes: nat := 10240

  const IncidentNotFound: Reply := Reply(404, "Incident not found.")
  const AttachmentNotFound: Reply := Reply(404, "Attachment not found.")

  /** The position of the attachment with that id, if any. */
  function AttachmentIndex(rows: seq<Attachment>, id: nat): (r: Option<nat>)
    ensures r.Some? ==> r.value < |rows| && rows[r.value].id == id
    ensures r.None? ==> forall k :: 0 <= k < |rows| ==> rows[k].id != id
  {
    if rows == [] then None
    else if rows[0].id == id then Some(0)
    else
      var r := AttachmentIndex(rows[1..], id);
      if r.Some? then Some(r.value + 1) else None
  }

  /** `index`: 404 for an unknown incident, 403 when the user may not view
      it, otherwise the attachments of that incident. */
  function Index(incidents: seq<Incident>, attachments: seq<Attachment>, id: nat, user: Actor)
    : (r: Result<seq<Attachment>, Reply>)
    ensures IndexOfId(incidents, id).None? <==> r == Err(IncidentNotFound)
    ensures r == Err(Reply(403, "You do not have permission to view this incident.")) <==>
      IndexOfId(incidents, id).Some? && !CanBeViewedBy(incidents[IndexOfId(incidents, id).value], user)
    ensures r.Ok? <==> IndexOfId(incidents, id).Some? && CanBeViewedBy(incidents[IndexOfId(incidents, id).value], user)
    ensures r.Ok? ==> forall a :: a in r.value <==> a in attachments && a.incidentId == id
    ensures r.Ok? ==> multiset(r.value) == multiset(Filter(attachments, (a: Attachment) => a.incidentId == id))
  {
    match IndexOfId(incidents, id)
    case None => Err(IncidentNotFound)
    case Some(k) =>
      if !CanBeViewedBy(incidents[k], user) then Err(Reply(403, "You do not have permission to view this incident."))
      else Ok(Filter(attachments, (a: Attachment) => a.incidentId == id))
  }

  /** The upload rules: a file must be present and at most 10240 KB. */
  function CheckUpload(file: Option<Upload>): (r: Option<Reply>)
    ensures r.None? <==> file.Some? && file.value.size <= MaxUploadKilobytes * 1024
  {
    if file.None? then Some(Reply(422, "The file field is required."))
    else if file.value.size > MaxUploadKilobytes * 1024 then
      Some(Reply(422, "The file field must not be greater than 10240 kilobytes."))
    else None
  }

  /** The download check, after the attachment is found: its incident must be viewable. */
  function DownloadCheck(incidents: seq<Incident>, a: Attachment, user: Actor): (r: Option<Reply>)
    requires IndexOfId(incidents, a.incidentId).Some?
    ensures r.None? <==> CanBeViewedBy(incidents[IndexOfId(incidents, a.incidentId).value], user)
  {
    if !CanBeViewedBy(incidents[IndexOfId(incidents, a.incidentId).value], user) then
      Some(Reply(403, "You do not have permission to download this attachment."))
    else None
  }

  /** Every attachment's incident exists: the foreign key cascades deletes. */
  predicate ForeignKeysHold(incidents: seq<Incident>, attachments: seq<Attachment>)
  {
    forall a :: a in attachments ==> IndexOfId(incidents, a.incidentId).Some?
  }

  /**
   * `download`: 404 for an unknown attachment, 403 when its incident is
   * not viewable, otherwise the stored path and the original file name.
   */
  function Download(incidents: seq<Incident>, attachments: seq<Attachment>, id: nat, user: Actor)
    : (r: Result<(string, string), Reply>)
    requires ForeignKeysHold(incidents, attachments)
    ensures AttachmentIndex(attachments, id).None? <==> r == Err(AttachmentNotFound)
    ensures r.Ok? ==>
      exists a :: a in attachments && a.id == id && r.value == (a.filePath, a.fileName) &&
        (exists i :: i in incidents && i.id == a.incidentId && CanBeViewedBy(i, user))
    ensures AttachmentIndex(attachments, id).Some? ==>
      var a := attachments[AttachmentIndex(attachments, id).value];
      (r.Ok? <==> CanBeViewedBy(incidents[IndexOfId(incidents, a.incidentId).value], user))
  {
    match AttachmentIndex(attachments, id)
    case None => Err(AttachmentNotFound)
    case Some(k) =>
      var a := attachments[k];
      assert a in attachments;
      var check := DownloadCheck(incidents, a, user);
      if check.Some? then Err(check.value)
      else
        assert incidents[IndexOfId(incidents, a.incidentId).value] in incidents;
        Ok((a.filePath, a.fileName))
  }

  /** The `incident_attachments` table. */
  class AttachmentTable {
    var rows: seq<Attachment>
    /** The auto-increment counter of the `id` column. */
    var nextId: nat

    ghost predicate Valid()
      reads this
    {
      forall k :: 0 <= k < |rows| ==> rows[k].id < nextId
    }

    constructor ()
      ensures Valid() && rows == [] && nextId == 1
    {
      rows := [];
      nextId := 1;
    }

    /**
     * `store`: the upload rules first (422), then 404 for an unknown
     * incident and 403 when it is not viewable; otherwise one row that
     * records the route's incident and the uploader. `path` is where the
     * disk stored the file.
     */
    method Store(incidents: seq<Incident>, id: nat, user: Actor, file: Option<Upload>, path: string)
      returns (r: Reply)
      requires Valid()
      modifies this
      ensures Valid()
      ensures CheckUpload(file).Some? ==> r == CheckUpload(file).value
      ensures CheckUpload(file).None? && IndexOfId(incidents, id).None? ==> r == IncidentNotFound
      ensures CheckUpload(file).None? && IndexOfId(incidents, id).Some? &&
              !CanBeViewedBy(incidents[IndexOfId(incidents, id).value], user) ==>
        r == Reply(403, "You do not have permission to upload to this incident.")
      ensures r.Success() <==>
        CheckUpload(file).None? && IndexOfId(incidents, id).Some? &&
        CanBeViewedBy(incidents[IndexOfId(incidents, id).value], user)
      ensures !r.Success() ==> rows == old(rows) && nextId == old(nextId)
      ensures r.Success() ==>
        r == Reply(201, "Attachment uploaded successfully.") &&
        rows == old(rows) + [Attachment(old(nextId), id, user.id, file.value.clientName, path, file.value.mimeType, file.value.size)] &&
        nextId == old(nextId) + 1
    {
      var invalid := CheckUpload(file);
      if invalid.Some? {
        return invalid.value;
      }
      var found := IndexOfId(incidents, id);
      if found.None? {
        return IncidentNotFound;
      }
      if !CanBeViewedBy(incidents[found.value], user) {
        return Reply(403, "You do not have permission to upload to this incident.");
      }
      rows := rows + [Attachment(nextId, id, user.id, file.value.clientName, path, file.value.mimeType, file.value.size)];
      nextId := nextId + 1;
      r := Reply(201, "Attachment uploaded successfully.");
    }

    /**
     * `destroy`: 404 for an unknown attachment; only its uploader or an
     * admin may delete it (403); then the row is removed.
     */
    method Destroy(id: nat, user: Actor) returns (r: Reply)
      requires Valid()
      modifies this
      ensures Valid() && nextId == old(nextId)
      ensures AttachmentIndex(old(rows), id).None? ==> r == AttachmentNotFound && rows == old(rows)
      ensures AttachmentIndex(old(rows), id).Some? ==>
        var k := AttachmentIndex(old(rows), id).value;
        var allowed := old(rows)[k].uploadedBy == user.id || IsAdmin(user.role);
        (!allowed ==> r == Reply(403, "You do not have permission to delete this attachment.") && rows == old(rows)) &&
        (allowed ==> r == Reply(200, "Attachment deleted successfully.") && rows == old(rows)[..k] + old(rows)[k + 1..])
    {
      var found := AttachmentIndex(rows, id);
      if found.None? {
        return AttachmentNotFound;
      }
      var k := found.value;
      if rows[k].uploadedBy != user.id && !IsAdmin(user.role) {
        return Reply(403, "You do not have permission to delete this attachment.");
      }
      rows := rows[..k] + rows[k + 1..];
      r := Reply(200, "Attachment deleted successfully.");
    }
  }
}
