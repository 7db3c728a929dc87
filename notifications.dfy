/** The signed-in user's notification inbox: listing, the unread count and marking read. */
module Notifications {
  import opened Wrappers
  import opened Schema
  import opened Types
  import opened Seqs
  import opened Ordering
  import opened Session

  function ToView(n: NotificationRecord): NotificationView {
    NotificationView(n.id, n.kind, n.message, n.referenceId, n.read, n.createdAt)
  }

  function OwnedBy(userId: string): NotificationRecord -> bool {
    (n: NotificationRecord) => n.userId == userId
  }

  function UnreadOf(userId: string): NotificationRecord -> bool {
    (n: NotificationRecord) => n.userId == userId && !n.read
  }

  /** The sort key of `ORDER BY createdAt DESC`. */
  function NewestFirst(n: NotificationRecord): int { -n.createdAt }

  function ViewNewestFirst(v: NotificationView): int { -v.createdAt }

  /** The caller's notifications, newest first. */
  function Inbox(rows: seq<NotificationRecord>, userId: string): seq<NotificationView> {
    Map(ToView, SortBy(Filter(OwnedBy(userId), rows), NewestFirst))
  }

  /** `getNotifications`. */
  function GetNotifications(db: Database, session: Option<SessionUser>)
    : (o: Outcome<ActionResult<seq<NotificationView>>>)
    reads db
    ensures RequireAuth(session).Redirect? <==> o.Redirected?
    ensures o.Redirected? ==> o.path == "/auth/login"
    ensures o.Returned? ==> o.result == Ok(Inbox(db.notifications, session.value.id))
  {
    match RequireAuth(session)
    case Redirect(p) => Redirected(p)
    case Pass(u) => Returned(Ok(Inbox(db.notifications, u.id)))
  }

  /** The inbox lists exactly the caller's notifications, newest first. */
  lemma InboxIsOwnNewestFirst(rows: seq<NotificationRecord>, userId: string)
    ensures forall v :: v in Inbox(rows, userId) <==>
      exists n :: n in rows && n.userId == userId && ToView(n) == v
    ensures SortedBy(Inbox(rows, userId), ViewNewestFirst)
  {
    InboxOwn(rows, userId);
    InboxComplete(rows, userId);
    InboxSorted(rows, userId);
  }

  lemma InboxOwn(rows: seq<NotificationRecord>, userId: string)
    ensures forall v :: v in Inbox(rows, userId) ==>
      exists n :: n in rows && n.userId == userId && ToView(n) == v
  {
    var own := Filter(OwnedBy(userId), rows);
    var sorted := SortBy(own, NewestFirst);
    var inbox := Inbox(rows, userId);
    forall v | v in inbox ensures exists n :: n in rows && n.userId == userId && ToView(n) == v {
      var i :| 0 <= i < |inbox| && inbox[i] == v;
      MemberOfSorted(own, NewestFirst, sorted[i]);
    }
  }

  lemma InboxComplete(rows: seq<NotificationRecord>, userId: string)
    ensures forall n :: n in rows && n.userId == userId ==> ToView(n) in Inbox(rows, userId)
  {
    var own := Filter(OwnedBy(userId), rows);
    var sorted := SortBy(own, NewestFirst);
    var inbox := Inbox(rows, userId);
    forall n | n in rows && n.userId == userId ensures ToView(n) in inbox {
      MemberOfSorted(own, NewestFirst, n);
      var i :| 0 <= i < |sorted| && sorted[i] == n;
      assert inbox[i] == ToView(n);
    }
  }

  lemma InboxSorted(rows: seq<NotificationRecord>, userId: string)
    ensures SortedBy(Inbox(rows, userId), ViewNewestFirst)
  {
    var sorted := SortBy(Filter(OwnedBy(userId), rows), NewestFirst);
    var inbox := Inbox(rows, userId);
    forall i, j | 0 <= i < j < |inbox| ensures ViewNewestFirst(inbox[i]) <= ViewNewestFirst(inbox[j]) {
      assert inbox[i] == ToView(sorted[i]) && inbox[j] == ToView(sorted[j]);
    }
  }

  /** The number of the caller's notifications with `read = false`. */
  function UnreadCount(rows: seq<NotificationRecord>, userId: string): nat {
    Count(UnreadOf(userId), rows)
  }

  /** `getUnreadCount`. */
  function GetUnreadCount(db: Database, session: Option<SessionUser>): (o: Outcome<ActionResult<nat>>)
    reads db
    ensures RequireAuth(session).Redirect? <==> o.Redirected?
    ensures o.Returned? ==> o.result == Ok(UnreadCount(db.notifications, session.value.id))
  {
    match RequireAuth(session)
    case Redirect(p) => Redirected(p)
    case Pass(u) => Returned(Ok(UnreadCount(db.notifications, u.id)))
  }

  /** The unread count never exceeds the length of the inbox. */
  lemma {:induction false} UnreadAtMostInbox(rows: seq<NotificationRecord>, userId: string)
    ensures UnreadCount(rows, userId) <= |Inbox(rows, userId)|
  {
    SubCount(rows, userId);
  }

  lemma {:induction false} SubCount(rows: seq<NotificationRecord>, userId: string)
    ensures |Filter(UnreadOf(userId), rows)| <= |Filter(OwnedBy(userId), rows)|
  {
    if rows != [] {
      SubCount(rows[1..], userId);
    }
  }

  /** `UPDATE notifications SET read = true WHERE <selected>`. */
  function SetRead(rows: seq<NotificationRecord>, selected: NotificationRecord -> bool)
    : (r: seq<NotificationRecord>)
    ensures |r| == |rows|
    ensures forall i :: 0 <= i < |rows| ==>
      r[i] == if selected(rows[i]) then rows[i].(read := true) else rows[i]
  {
    if rows == [] then []
    else [if selected(rows[0]) then rows[0].(read := true) else rows[0]] + SetRead(rows[1..], selected)
  }

  /** The rows `markRead(id)` touches: that id, owned by the caller. */
  function ReadTarget(id: string, userId: string): NotificationRecord -> bool {
    (n: NotificationRecord) => n.id == id && n.userId == userId
  }

  /** `markRead`. An id that is unknown or someone else's matches no row: the action
      changes nothing and still succeeds. */
  method MarkRead(db: Database, session: Option<SessionUser>, id: string)
    returns (o: Outcome<ActionResult<Unit>>)
    modifies db`notifications
    ensures RequireAuth(session).Redirect? ==>
      o == Redirected("/auth/login") && db.notifications == old(db.notifications)
    ensures RequireAuth(session).Pass? ==>
      o == Returned(Ok(Unit))
      && db.notifications == SetRead(old(db.notifications), ReadTarget(id, session.value.id))
  {
    var gate := RequireAuth(session);
    if gate.Redirect? {
      return Redirected(gate.path);
    }
    db.notifications := SetRead(db.notifications, ReadTarget(id, gate.user.id));
    o := Returned(Ok(Unit));
  }

  /** `markAllRead`. */
  method MarkAllRead(db: Database, session: Option<SessionUser>) returns (o: Outcome<ActionResult<Unit>>)
    modifies db`notifications
    ensures RequireAuth(session).Redirect? ==>
      o == Redirected("/auth/login") && db.notifications == old(db.notifications)
    ensures RequireAuth(session).Pass? ==>
      o == Returned(Ok(Unit))
      && db.notifications == SetRead(old(db.notifications), UnreadOf(session.value.id))
  {
    var gate := RequireAuth(session);
    if gate.Redirect? {
      return Redirected(gate.path);
    }
    db.notifications := SetRead(db.notifications, UnreadOf(gate.user.id));
    o := Returned(Ok(Unit));
  }

  /** Marking read changes only the `read` flag, and only on rows of the caller: another
      user's rows, and the caller's rows not selected, stay as they were. */
  lemma MarkReadScoped(rows: seq<NotificationRecord>, id: string, userId: string)
    ensures forall i :: 0 <= i < |rows| ==>
      SetRead(rows, ReadTarget(id, userId))[i].(read := rows[i].read) == rows[i]
    ensures forall i :: 0 <= i < |rows| && (rows[i].userId != userId || rows[i].id != id) ==>
      SetRead(rows, ReadTarget(id, userId))[i] == rows[i]
    ensures forall i :: 0 <= i < |rows| && rows[i].userId == userId && rows[i].id == id ==>
      SetRead(rows, ReadTarget(id, userId))[i].read
  {
  }

  lemma MarkAllReadScoped(rows: seq<NotificationRecord>, userId: string)
    ensures forall i :: 0 <= i < |rows| ==>
      SetRead(rows, UnreadOf(userId))[i].(read := rows[i].read) == rows[i]
    ensures forall i :: 0 <= i < |rows| && rows[i].userId != userId ==>
      SetRead(rows, UnreadOf(userId))[i] == rows[i]
  {
  }

  /** After `markAllRead` the caller has no unread notification. */
  lemma {:induction false} MarkAllReadClearsCount(rows: seq<NotificationRecord>, userId: string)
    ensures UnreadCount(SetRead(rows, UnreadOf(userId)), userId) == 0
  {
    FilterNone(UnreadOf(userId), SetRead(rows, UnreadOf(userId)));
  }

  /** Marking read twice is marking read once. */
  lemma {:induction false} SetReadIdempotent(rows: seq<NotificationRecord>, selected: NotificationRecord -> bool)
    ensures SetRead(SetRead(rows, selected), selected) == SetRead(rows, selected)
  {
    if rows != [] {
      SetReadIdempotent(rows[1..], selected);
    }
  }

  /** `markAllRead(u)` then `markAllRead(u)` is `markAllRead(u)`: the second pass finds no
      unread row of `u`. */
  lemma MarkAllReadIdempotent(rows: seq<NotificationRecord>, userId: string)
    ensures SetRead(SetRead(rows, UnreadOf(userId)), UnreadOf(userId)) == SetRead(rows, UnreadOf(userId))
  {
    SetReadIdempotent(rows, UnreadOf(userId));
  }
}
