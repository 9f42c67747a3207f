/**
 * The in-app inbox: who is told about what (never the person who acted),
 * and the read/unread bookkeeping of the `notifications` table.
 */
module NotificationService {
  import opened Common
  import opened UserRoleEnum
  import opened UserModel
  import opened IncidentStatusEnum
  import opened IncidentModel

  /** One row of `notifications`. The JSON payload is reduced to its
      message and the incident it concerns; the uuid key is a counter. */
  datatype Notification = Notification(
    id: nat,
    userId: nat,
    kind: string,
    message: string,
    incidentId: Option<nat>,
    readAt: Option<nat>,
    createdAt: nat)

  const IncidentCreatedKind: string := "incident_created"
  const StatusChangedKind: string := "status_changed"
  const IncidentAssignedKind: string := "incident_assigned"
  const NewCommentKind: string := "new_comment"

  /** The rows written for `userIds`, in order, with consecutive ids from `firstId`. */
  function Batch(userIds: seq<nat>, firstId: nat, kind: string, message: string, incidentId: Option<nat>, now: nat)
    : (r: seq<Notification>)
    ensures |r| == |userIds|
    ensures forall k :: 0 <= k < |r| ==> r[k] == Notification(firstId + k, userIds[k], kind, message, incidentId, None, now)
  {
    seq(|userIds|, k requires 0 <= k < |userIds| => Notification(firstId + k, userIds[k], kind, message, incidentId, None, now))
  }

  /**
   * The recipients of `notifyIncidentCreated`. The query reads
   * `role = operator OR role = admin AND is_active`, and AND binds tighter:
   * every operator, active or not, and the active admins.
   */
  predicate IsCreatedRecipient(u: UserState)
  {
    u.role == Operator || (u.role == Admin && u.isActive)
  }

  /** The ids of the recipients among `users`, in table order. */
  function RecipientIds(users: seq<UserState>): (r: seq<nat>)
    ensures |r| <= |users|
    ensures forall id :: id in r <==> exists u :: u in users && IsCreatedRecipient(u) && u.id == id
  {
    if users == [] then []
    else
      var init := users[..|users| - 1];
      var last := users[|users| - 1];
      assert forall u :: u in users <==> u in init || u == last;
      RecipientIds(init) + (if IsCreatedRecipient(last) then [last.id] else [])
  }

  /** Reporters are never told about a new incident; operators always are. */
  lemma CreatedRecipientsByRole(u: UserState)
    ensures u.role == Reporter ==> !IsCreatedRecipient(u)
    ensures u.role == Operator ==> IsCreatedRecipient(u)
    ensures u.role == Admin ==> (IsCreatedRecipient(u) <==> u.isActive)
  {
  }

  /** The reporter, unless they acted, then the assignee, if any and unless they acted. */
  function InvolvedRecipients(i: Incident, actor: nat): (r: seq<nat>)
    ensures actor !in r
    ensures i.reportedBy in r <==> i.reportedBy != actor
    ensures i.assignedTo.Some? && i.assignedTo.value != actor ==> i.assignedTo.value in r
    ensures forall id :: id in r ==> id == i.reportedBy || i.assignedTo == Some(id)
    ensures |r| <= 2
  {
    (if i.reportedBy != actor then [i.reportedBy] else []) +
    (if i.assignedTo.Some? && i.assignedTo.value != actor then [i.assignedTo.value] else [])
  }

  /** The recipients of `notifyAssignment`: the assignee, unless they assigned themselves. */
  function AssignmentRecipients(assignedTo: nat, assignedBy: nat): (r: seq<nat>)
    ensures assignedBy !in r
    ensures r == [] <==> assignedTo == assignedBy
  {
    if assignedTo != assignedBy then [assignedTo] else []
  }

  /** `markAsRead`: the row with that id gets `read_at`, read or not, whoever owns it. */
  function MarkRead(rs: seq<Notification>, id: nat, now: nat): (r: seq<Notification>)
    ensures |r| == |rs|
    ensures forall k :: 0 <= k < |rs| ==> r[k] == if rs[k].id == id then rs[k].(readAt := Some(now)) else rs[k]
  {
    seq(|rs|, k requires 0 <= k < |rs| => if rs[k].id == id then rs[k].(readAt := Some(now)) else rs[k])
  }

  predicate UnreadFor(n: Notification, userId: nat)
  {
    n.userId == userId && n.readAt.None?
  }

  /** `markAllAsRead`: the user's unread rows get `read_at`; rows already read keep theirs. */
  function MarkAllRead(rs: seq<Notification>, userId: nat, now: nat): (r: seq<Notification>)
    ensures |r| == |rs|
    ensures forall k :: 0 <= k < |rs| ==> r[k] == if UnreadFor(rs[k], userId) then rs[k].(readAt := Some(now)) else rs[k]
  {
    seq(|rs|, k requires 0 <= k < |rs| => if UnreadFor(rs[k], userId) then rs[k].(readAt := Some(now)) else rs[k])
  }

  /** `getUnreadForUser`: the user's unread rows, newest first. */
  function GetUnreadForUser(rs: seq<Notification>, userId: nat): (r: seq<Notification>)
    ensures forall n :: n in r <==> n in rs && UnreadFor(n, userId)
    ensures multiset(r) == multiset(Filter(rs, (n: Notification) => UnreadFor(n, userId)))
    ensures SortedDesc(r, (n: Notification) => SortKey(n.createdAt, 0))
  {
    var mine := Filter(rs, (n: Notification) => UnreadFor(n, userId));
    var r := SortDesc(mine, (n: Notification) => SortKey(n.createdAt, 0));
    SameMembers(r, mine);
    r
  }

  /** `getUnreadCount`: the number of the user's unread rows, which is
      the length of the list `getUnreadForUser` returns. */
  function GetUnreadCount(rs: seq<Notification>, userId: nat): (c: nat)
    ensures c == |GetUnreadForUser(rs, userId)|
    ensures c == Count(rs, (n: Notification) => UnreadFor(n, userId))
    ensures c <= |rs|
  {
    FilterLength(rs, (n: Notification) => UnreadFor(n, userId));
    |Filter(rs, (n: Notification) => UnreadFor(n, userId))|
  }

  /** After `markAllAsRead(u)` the user has nothing unread, and every row
      of another user is as it was. */
  lemma MarkAllReadClearsOnlyTheUser(rs: seq<Notification>, userId: nat, now: nat)
    ensures GetUnreadCount(MarkAllRead(rs, userId, now), userId) == 0
    ensures forall k :: 0 <= k < |rs| && rs[k].userId != userId ==> MarkAllRead(rs, userId, now)[k] == rs[k]
  {
    var r := MarkAllRead(rs, userId, now);
    assert forall n :: n in r ==> !UnreadFor(n, userId);
    assert GetUnreadForUser(r, userId) == [];
  }

  /** Marking one row read never raises anyone's unread count. */
  lemma {:induction false} MarkReadLowersCount(rs: seq<Notification>, id: nat, userId: nat, now: nat)
    ensures GetUnreadCount(MarkRead(rs, id, now), userId) <= GetUnreadCount(rs, userId)
  {
    if rs != [] {
      MarkReadLowersCount(rs[1..], id, userId, now);
      assert MarkRead(rs, id, now)[1..] == MarkRead(rs[1..], id, now);
    }
  }

  class NotificationService {
    var records: seq<Notification>
    /** Stands for the uuid generator: every row gets a new key. */
    var nextId: nat

    /** Keys are below the counter, so a new key is never one in use. */
    ghost predicate Valid()
      reads this
    {
      forall k :: 0 <= k < |records| ==> records[k].id < nextId
    }

    constructor ()
      ensures Valid() && records == [] && nextId == 0
    {
      records := [];
      nextId := 0;
    }

    /** `notifyUser`: appends one unread row for that user. */
    method NotifyUser(userId: nat, kind: string, message: string, incidentId: Option<nat>, now: nat)
      requires Valid()
      modifies this
      ensures Valid()
      ensures records == old(records) + [Notification(old(nextId), userId, kind, message, incidentId, None, now)]
      ensures nextId == old(nextId) + 1
    {
      records := records + [Notification(nextId, userId, kind, message, incidentId, None, now)];
      nextId := nextId + 1;
    }

    /** `notifyIncidentCreated`: one row per operator and per active admin, in table order. */
    method NotifyIncidentCreated(i: Incident, users: seq<UserState>, now: nat)
      requires Valid()
      modifies this
      ensures Valid()
      ensures records == old(records) +
        Batch(RecipientIds(users), old(nextId), IncidentCreatedKind, "New incident: " + i.title, Some(i.id), now)
    {
      var j := 0;
      var message := "New incident: " + i.title;
      while j < |users|
        invariant 0 <= j <= |users|
        invariant Valid()
        invariant records == old(records) + Batch(RecipientIds(users[..j]), old(nextId), IncidentCreatedKind, message, Some(i.id), now)
        invariant nextId == old(nextId) + |RecipientIds(users[..j])|
      {
        assert users[..j + 1][..j] == users[..j];
        if IsCreatedRecipient(users[j]) {
          NotifyUser(users[j].id, IncidentCreatedKind, message, Some(i.id), now);
        }
        j := j + 1;
      }
      assert users[..j] == users;
    }

    /** Tells the reporter, unless they acted, then the assignee, if any and unless they acted. */
    method NotifyInvolved(i: Incident, actor: nat, kind: string, message: string, now: nat)
      requires Valid()
      modifies this
      ensures Valid()
      ensures records == old(records) + Batch(InvolvedRecipients(i, actor), old(nextId), kind, message, Some(i.id), now)
    {
      if i.reportedBy != actor {
        NotifyUser(i.reportedBy, kind, message, Some(i.id), now);
      }
      if i.assignedTo.Some? && i.assignedTo.value != actor {
        NotifyUser(i.assignedTo.value, kind, message, Some(i.id), now);
      }
    }

    /** `notifyStatusChanged`: the reporter and the assignee, never the one who changed it. */
    method NotifyStatusChanged(i: Incident, newStatus: string, changedBy: nat, now: nat)
      requires Valid()
      modifies this
      ensures Valid()
      ensures records == old(records) +
        Batch(InvolvedRecipients(i, changedBy), old(nextId), StatusChangedKind,
              "Incident " + i.incidentNumber + " status changed to " + newStatus, Some(i.id), now)
    {
      NotifyInvolved(i, changedBy, StatusChangedKind, "Incident " + i.incidentNumber + " status changed to " + newStatus, now);
    }

    /** `notifyAssignment`: nothing when someone assigns themselves. */
    method NotifyAssignment(i: Incident, assignedTo: nat, assignedBy: nat, now: nat)
      requires Valid()
      modifies this
      ensures Valid()
      ensures records == old(records) +
        Batch(AssignmentRecipients(assignedTo, assignedBy), old(nextId), IncidentAssignedKind,
              "You have been assigned to incident: " + i.title, Some(i.id), now)
    {
      if assignedTo != assignedBy {
        NotifyUser(assignedTo, IncidentAssignedKind, "You have been assigned to incident: " + i.title, Some(i.id), now);
      }
    }

    /** `notifyComment`: the same recipients as a status change. */
    method NotifyComment(i: Incident, commentedBy: nat, now: nat)
      requires Valid()
      modifies this
      ensures Valid()
      ensures records == old(records) +
        Batch(InvolvedRecipients(i, commentedBy), old(nextId), NewCommentKind,
              "New comment on incident " + i.incidentNumber, Some(i.id), now)
    {
      NotifyInvolved(i, commentedBy, NewCommentKind, "New comment on incident " + i.incidentNumber, now);
    }

    method MarkAsRead(id: nat, now: nat)
      requires Valid()
      modifies this
      ensures Valid() && nextId == old(nextId)
      ensures records == MarkRead(old(records), id, now)
    {
      records := MarkRead(records, id, now);
    }

    method MarkAllAsRead(userId: nat, now: nat)
      requires Valid()
      modifies this
      ensures Valid() && nextId == old(nextId)
      ensures records == MarkAllRead(old(records), userId, now)
    {
      records := MarkAllRead(records, userId, now);
    }
  }
}
