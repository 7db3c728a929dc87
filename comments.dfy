/** The comment threads of a post: reading them grouped one level deep, posting comments
    and replies, and the moderation actions with the notifications they send. */
module Comments {
  import opened Wrappers
  import opened Schema
  import opened Types
  import opened Seqs
  import opened Ordering
  import opened Session
  import opened Zod
  import opened CommentValidators
  import opened Grouping

  // ---------------------------------------------------------------------------------------
  // Reading

  /** One row of the comment select: a comment with its author left-joined from users. */
  datatype CommentRow = CommentRow(comment: CommentRecord, author: Option<UserRecord>)

  /** The author shown for a comment whose author row is gone. */
  const DELETED_USER := UserView("", Some("Deleted User"), "", None, User, 0)

  function AuthorView(u: UserRecord): UserView {
    UserView(u.id, u.name, u.email, u.image, u.role, u.createdAt)
  }

  /** `rowToCommentView`: copies the comment's own columns, starts with no replies and
      shows the "Deleted User" placeholder unless the joined author has a (non-empty) id. */
  function RowToCommentView(row: CommentRow): (v: CommentView)
    ensures v.id == row.comment.id && v.postId == row.comment.postId
    ensures v.content == row.comment.content && v.renderedContent == row.comment.renderedContent
    ensures v.parentId == row.comment.parentId && v.hidden == row.comment.hidden
    ensures v.createdAt == row.comment.createdAt
    ensures v.replies == []
    ensures v.author == DELETED_USER <==> !(row.author.Some? && row.author.value.id != "")
    ensures row.author.Some? && row.author.value.id != "" ==> v.author == AuthorView(row.author.value)
  {
    var author := if row.author.Some? && row.author.value.id != "" then AuthorView(row.author.value)
                  else DELETED_USER;
    CommentView(row.comment.id, row.comment.content, row.comment.renderedContent,
      row.comment.postId, author, row.comment.parentId, row.comment.hidden,
      row.comment.createdAt, [])
  }

  /** The left join on `comments.authorId = users.id`. */
  function JoinWith(users: seq<UserRecord>): CommentRecord -> CommentRow {
    (c: CommentRecord) => CommentRow(c, if c.authorId.Some? then First(UserWithId(c.authorId.value), users) else None)
  }

  function OnPost(postId: string): CommentRecord -> bool {
    (c: CommentRecord) => c.postId == postId
  }

  function CommentTime(c: CommentRecord): int { c.createdAt }
  function RowTime(r: CommentRow): int { r.comment.createdAt }
  function ViewTime(v: CommentView): int { v.createdAt }
  function RowId(r: CommentRow): string { r.comment.id }
  function ViewId(v: CommentView): string { v.id }

  /** The select of `getComments`: the post's comments, oldest first, with their authors. */
  function SelectRows(comments: seq<CommentRecord>, users: seq<UserRecord>, postId: string): seq<CommentRow> {
    Map(JoinWith(users), SortBy(Filter(OnPost(postId), comments), CommentTime))
  }

  predicate IsTopRow(r: CommentRow) { r.comment.parentId.None? }

  /** The key a row is grouped under: its parent id, if it has one. */
  function ParentKey(r: CommentRow): Option<string> { r.comment.parentId }

  function RepliesTo(id: string): CommentRow -> bool {
    HasKey(ParentKey, id)
  }

  /** The replies of the comment `id`: every row naming it as parent, in row order. */
  function Replies(rows: seq<CommentRow>, id: string): seq<CommentView> {
    Group(rows, ParentKey, RowToCommentView, id)
  }

  /** A comment with its replies attached. */
  function Attached(rows: seq<CommentRow>, v: CommentView): CommentView {
    v.(replies := Replies(rows, v.id))
  }

  function WithReplies(rows: seq<CommentRow>): CommentView -> CommentView {
    (v: CommentView) => Attached(rows, v)
  }

  /** The grouped read: the top-level rows in order, each carrying its replies. */
  function Threads(rows: seq<CommentRow>): seq<CommentView> {
    Map(WithReplies(rows), Map(RowToCommentView, Filter(IsTopRow, rows)))
  }

  /** One more row extends the top-level list. */
  lemma TopStep(rows: seq<CommentRow>, i: nat)
    requires i < |rows|
    ensures Map(RowToCommentView, Filter(IsTopRow, rows[..i + 1]))
      == Map(RowToCommentView, Filter(IsTopRow, rows[..i]))
         + (if IsTopRow(rows[i]) then [RowToCommentView(rows[i])] else [])
  {
    var row := rows[i];
    assert rows[..i + 1] == rows[..i] + [row];
    FilterConcat(IsTopRow, rows[..i], [row]);
    MapConcat(RowToCommentView, Filter(IsTopRow, rows[..i]), Filter(IsTopRow, [row]));
  }

  /** The reply map after the first pass has read `rows`: each reply is appended to the
      list of its parent id, the list being created on first use. */
  function Gather(rows: seq<CommentRow>): map<string, seq<CommentView>> {
    GroupBy(rows, ParentKey, RowToCommentView)
  }

  /** The first pass of `getComments`: top-level comments in order, and the replies
      gathered per parent id. */
  method SplitRows(rows: seq<CommentRow>)
    returns (top: seq<CommentView>, repliesMap: map<string, seq<CommentView>>)
    ensures top == Map(RowToCommentView, Filter(IsTopRow, rows))
    ensures repliesMap == Gather(rows)
  {
    top := [];
    repliesMap := map[];
    var i := 0;
    while i < |rows|
      invariant 0 <= i <= |rows|
      invariant top == Map(RowToCommentView, Filter(IsTopRow, rows[..i]))
      invariant repliesMap == Gather(rows[..i])
    {
      var row := rows[i];
      var comment := RowToCommentView(row);
      TopStep(rows, i);
      GroupByStep(rows, ParentKey, RowToCommentView, i);
      if row.comment.parentId.None? {
        top := top + [comment];
      } else {
        var p := row.comment.parentId.value;
        var group := if p in repliesMap then repliesMap[p] else [];
        repliesMap := repliesMap[p := group + [comment]];
      }
      i := i + 1;
    }
    assert rows[..i] == rows;
  }

  /** The grouping of `getComments`: the first pass sorts rows into the top-level list
      and a map from parent id to replies, the second attaches each reply list to its
      parent (an empty list when the map has none). */
  method GroupComments(rows: seq<CommentRow>) returns (topLevel: seq<CommentView>)
    ensures topLevel == Threads(rows)
  {
    var top, repliesMap := SplitRows(rows);
    var result := top;
    var j := 0;
    while j < |top|
      invariant 0 <= j <= |top| && |result| == |top|
      invariant forall k :: 0 <= k < j ==> result[k] == top[k].(replies := Lookup(repliesMap, top[k].id))
      invariant forall k :: j <= k < |top| ==> result[k] == top[k]
    {
      var comment := result[j];
      var replies := Lookup(repliesMap, comment.id);
      result := result[j := comment.(replies := replies)];
      j := j + 1;
    }
    ThreadsOfTop(rows, top, repliesMap, result);
    topLevel := result;
  }

  /** The second pass attaches to a comment exactly its replies. */
  lemma Attach(rows: seq<CommentRow>, v: CommentView, replies: seq<CommentView>)
    requires replies == Lookup(Gather(rows), v.id)
    ensures v.(replies := replies) == Attached(rows, v)
  {
    LookupIsGroup(rows, ParentKey, RowToCommentView, v.id);
  }

  lemma ThreadsOfTop(rows: seq<CommentRow>, top: seq<CommentView>, repliesMap: map<string, seq<CommentView>>,
                     result: seq<CommentView>)
    requires top == Map(RowToCommentView, Filter(IsTopRow, rows)) && repliesMap == Gather(rows)
    requires |result| == |top|
    requires forall k :: 0 <= k < |top| ==> result[k] == top[k].(replies := Lookup(repliesMap, top[k].id))
    ensures result == Threads(rows)
  {
    forall k | 0 <= k < |top| ensures result[k] == Attached(rows, top[k]) {
      Attach(rows, top[k], Lookup(repliesMap, top[k].id));
    }
  }

  /** `getComments`. */
  method GetComments(db: Database, postId: string) returns (r: ActionResult<seq<CommentView>>)
    ensures r == Ok(Threads(SelectRows(db.comments, db.users, postId)))
  {
    var rows := SelectRows(db.comments, db.users, postId);
    var grouped := GroupComments(rows);
    r := Ok(grouped);
  }

  /** The select holds exactly the post's comments, each once per occurrence in the table,
      oldest first. */
  lemma SelectRowsSpec(comments: seq<CommentRecord>, users: seq<UserRecord>, postId: string)
    ensures forall r :: r in SelectRows(comments, users, postId) ==>
      r.comment in comments && r.comment.postId == postId
    ensures forall c :: c in comments && c.postId == postId ==>
      JoinWith(users)(c) in SelectRows(comments, users, postId)
    ensures SortedBy(SelectRows(comments, users, postId), RowTime)
  {
    var picked := Filter(OnPost(postId), comments);
    var sorted := SortBy(picked, CommentTime);
    var rows := SelectRows(comments, users, postId);
    assert forall r :: r in rows ==> r.comment in comments && r.comment.postId == postId by {
      forall r | r in rows ensures r.comment in comments && r.comment.postId == postId {
        var i :| 0 <= i < |rows| && rows[i] == r;
        MemberOfSorted(picked, CommentTime, sorted[i]);
      }
    }
    assert forall c :: c in comments && c.postId == postId ==> JoinWith(users)(c) in rows by {
      forall c | c in comments && c.postId == postId ensures JoinWith(users)(c) in rows {
        MemberOfSorted(picked, CommentTime, c);
        var i :| 0 <= i < |sorted| && sorted[i] == c;
        assert rows[i] == JoinWith(users)(c);
      }
    }
    assert SortedBy(rows, RowTime) by {
      forall i, j | 0 <= i < j < |rows| ensures RowTime(rows[i]) <= RowTime(rows[j]) {
        assert rows[i].comment == sorted[i] && rows[j].comment == sorted[j];
      }
    }
  }

  /** The top level of the grouped read is exactly the rows with no parent, in row order. */
  lemma {:induction false} ThreadsAreTopLevel(rows: seq<CommentRow>)
    ensures Map(ViewId, Threads(rows)) == Map(RowId, Filter(IsTopRow, rows))
    ensures forall t :: t in Threads(rows) ==> t.parentId.None?
  {
    var top := Filter(IsTopRow, rows);
    var threads := Threads(rows);
    assert |threads| == |top|;
    assert Map(ViewId, threads) == Map(RowId, top) by {
      forall i | 0 <= i < |threads| ensures Map(ViewId, threads)[i] == Map(RowId, top)[i] {
        assert threads[i].id == top[i].comment.id;
      }
    }
    assert forall t :: t in threads ==> t.parentId.None? by {
      forall t | t in threads ensures t.parentId.None? {
        var i :| 0 <= i < |threads| && threads[i] == t;
        assert top[i] in top;
      }
    }
  }

  /** The reply list of `id` names exactly the rows whose parent is `id`, in row order,
      and none of those replies carries replies of its own. */
  lemma ReplyViews(rows: seq<CommentRow>, id: string)
    ensures Map(ViewId, Replies(rows, id)) == Map(RowId, Filter(RepliesTo(id), rows))
    ensures forall v :: v in Replies(rows, id) ==> v.parentId == Some(id) && v.replies == []
  {
    var picked := Filter(RepliesTo(id), rows);
    var views := Replies(rows, id);
    assert views == Map(RowToCommentView, picked);
    forall v | v in views ensures v.parentId == Some(id) && v.replies == [] {
      var k :| 0 <= k < |views| && views[k] == v;
      assert picked[k] in picked;
      assert ParentKey(picked[k]) == Some(id);
    }
  }

  /** Each top-level comment of the grouped read carries its own reply list. */
  lemma ThreadReplies(rows: seq<CommentRow>, t: CommentView)
    requires t in Threads(rows)
    ensures t.replies == Replies(rows, t.id)
  {
    var top := Map(RowToCommentView, Filter(IsTopRow, rows));
    var i :| 0 <= i < |Threads(rows)| && Threads(rows)[i] == t;
    assert t == WithReplies(rows)(top[i]);
  }

  /** Each top-level comment carries as replies exactly the rows naming it as parent, in
      row order, and those replies carry no replies of their own. */
  lemma RepliesOfThreads(rows: seq<CommentRow>)
    ensures forall t :: t in Threads(rows) ==>
      Map(ViewId, t.replies) == Map(RowId, Filter(RepliesTo(t.id), rows))
    ensures forall t, v :: t in Threads(rows) && v in t.replies ==>
      v.parentId == Some(t.id) && v.replies == []
  {
    forall t | t in Threads(rows)
      ensures Map(ViewId, t.replies) == Map(RowId, Filter(RepliesTo(t.id), rows))
      ensures forall v :: v in t.replies ==> v.parentId == Some(t.id) && v.replies == []
    {
      ThreadReplies(rows, t);
      ReplyViews(rows, t.id);
    }
  }

  /** A reply whose parent is not a top-level row of the result appears nowhere. */
  lemma OrphansDropped(rows: seq<CommentRow>, p: string)
    requires forall r :: r in rows && IsTopRow(r) ==> r.comment.id != p
    ensures forall t :: t in Threads(rows) ==> t.id != p
    ensures forall t, v :: t in Threads(rows) && v in t.replies ==> v.parentId != Some(p)
  {
    ThreadsAreTopLevel(rows);
    RepliesOfThreads(rows);
    forall t | t in Threads(rows) ensures t.id != p {
      var i :| 0 <= i < |Threads(rows)| && Threads(rows)[i] == t;
      assert Map(ViewId, Threads(rows))[i] == t.id;
      assert Filter(IsTopRow, rows)[i] in Filter(IsTopRow, rows);
    }
  }

  /** With rows oldest first, every reply list is oldest first. */
  lemma RepliesKeepOrder(rows: seq<CommentRow>, id: string)
    requires SortedBy(rows, RowTime)
    ensures SortedBy(Replies(rows, id), ViewTime)
  {
    var picked := Filter(RepliesTo(id), rows);
    var views := Replies(rows, id);
    FilterKeepsSorted(RepliesTo(id), rows, RowTime);
    assert views == Map(RowToCommentView, picked);
    forall a, b | 0 <= a < b < |views| ensures ViewTime(views[a]) <= ViewTime(views[b]) {
      assert views[a].createdAt == picked[a].comment.createdAt;
      assert views[b].createdAt == picked[b].comment.createdAt;
    }
  }

  /** With rows oldest first, the top level and every reply list are oldest first. */
  lemma ThreadsKeepOrder(rows: seq<CommentRow>)
    requires SortedBy(rows, RowTime)
    ensures SortedBy(Threads(rows), ViewTime)
    ensures forall t :: t in Threads(rows) ==> SortedBy(t.replies, ViewTime)
  {
    FilterKeepsSorted(IsTopRow, rows, RowTime);
    var threads := Threads(rows);
    var top := Filter(IsTopRow, rows);
    forall i, j | 0 <= i < j < |threads| ensures ViewTime(threads[i]) <= ViewTime(threads[j]) {
      assert threads[i].createdAt == top[i].comment.createdAt;
      assert threads[j].createdAt == top[j].comment.createdAt;
    }
    forall t | t in threads ensures SortedBy(t.replies, ViewTime) {
      ThreadReplies(rows, t);
      RepliesKeepOrder(rows, t.id);
    }
  }

  // ---------------------------------------------------------------------------------------
  // Writing

  /** The author block of a freshly posted comment: the session user, creation time 0. */
  function SessionAuthor(u: SessionUser): UserView {
    UserView(u.id, u.name, u.email, u.image, u.role, 0)
  }

  /** The row a new comment or reply is stored as: visible, authored by the caller. */
  function NewComment(id: string, content: string, rendered: string, postId: string,
                      authorId: string, parentId: Option<string>, now: int): (c: CommentRecord)
    ensures c.id == id && c.authorId == Some(authorId) && c.parentId == parentId && !c.hidden
    ensures c.content == content && c.renderedContent == rendered && c.postId == postId
    ensures c.createdAt == now
  {
    CommentRecord(id, content, rendered, postId, Some(authorId), parentId, false, now)
  }

  function ViewOf(c: CommentRecord, author: UserView): CommentView {
    CommentView(c.id, c.content, c.renderedContent, c.postId, author, c.parentId, c.hidden,
      c.createdAt, [])
  }

  /** `createComment`. The rendering of the comment Markdown is the parameter `render`. */
  method CreateComment(db: Database, session: Option<SessionUser>, input: CommentInput,
                       render: string -> string, id: string, now: int)
    returns (o: Outcome<ActionResult<CommentView>>)
    modifies db`comments
    ensures RequireAuth(session).Redirect? ==>
      o == Redirected("/auth/login") && db.comments == old(db.comments)
    ensures RequireAuth(session).Pass? && ParseComment(input).Invalid? ==>
      o == Returned(Err(FirstMessage(ParseComment(input).issues))) && db.comments == old(db.comments)
    ensures RequireAuth(session).Pass? && ParseComment(input).Valid? ==>
      var c := NewComment(id, input.content, render(input.content), input.postId,
                          session.value.id, None, now);
      db.comments == old(db.comments) + [c]
      && o == Returned(Ok(ViewOf(c, SessionAuthor(session.value))))
  {
    var gate := RequireAuth(session);
    if gate.Redirect? {
      return Redirected(gate.path);
    }
    var user := gate.user;
    var parsed := ParseComment(input);
    if parsed.Invalid? {
      return Returned(Err(FirstMessage(parsed.issues)));
    }
    var content := parsed.data.content;
    var c := NewComment(id, content, render(content), parsed.data.postId, user.id, None, now);
    db.comments := db.comments + [c];
    o := Returned(Ok(ViewOf(c, SessionAuthor(user))));
  }

  /** The notice a reply sends: one `reply` notice to the parent's author, unless that
      author is gone or is the replier. */
  function ReplyNotices(parent: CommentRecord, replierId: string, noticeId: string,
                        replyId: string, now: int): (ns: seq<NotificationRecord>)
    ensures |ns| <= 1
    ensures ns != [] <==> Truthy(parent.authorId) && parent.authorId.value != replierId
    ensures forall n :: n in ns ==>
      n == NotificationRecord(noticeId, parent.authorId.value, Reply,
                              "Someone replied to your comment", Some(replyId), false, now)
      && n.userId != replierId
  {
    if Truthy(parent.authorId) && parent.authorId.value != replierId then
      [NotificationRecord(noticeId, parent.authorId.value, Reply,
                          "Someone replied to your comment", Some(replyId), false, now)]
    else []
  }

  /** `createReply`. The parent must exist and be top level; it is not checked to belong
      to the same post. */
  method CreateReply(db: Database, session: Option<SessionUser>, input: ReplyInput,
                     render: string -> string, id: string, noticeId: string, now: int)
    returns (o: Outcome<ActionResult<CommentView>>)
    modifies db`comments, db`notifications
    ensures RequireAuth(session).Redirect? ==>
      o == Redirected("/auth/login")
      && db.comments == old(db.comments) && db.notifications == old(db.notifications)
    ensures RequireAuth(session).Pass? && ParseReply(input).Invalid? ==>
      o == Returned(Err(FirstMessage(ParseReply(input).issues)))
      && db.comments == old(db.comments) && db.notifications == old(db.notifications)
    ensures RequireAuth(session).Pass? && ParseReply(input).Valid?
            && First(CommentWithId(input.parentId), old(db.comments)).None? ==>
      o == Returned(Err("Parent comment not found"))
      && db.comments == old(db.comments) && db.notifications == old(db.notifications)
    ensures RequireAuth(session).Pass? && ParseReply(input).Valid?
            && First(CommentWithId(input.parentId), old(db.comments)).Some?
            && First(CommentWithId(input.parentId), old(db.comments)).value.parentId.Some? ==>
      o == Returned(Err("Cannot reply to a reply"))
      && db.comments == old(db.comments) && db.notifications == old(db.notifications)
    ensures RequireAuth(session).Pass? && ParseReply(input).Valid?
            && First(CommentWithId(input.parentId), old(db.comments)).Some?
            && First(CommentWithId(input.parentId), old(db.comments)).value.parentId.None? ==>
      var parent := First(CommentWithId(input.parentId), old(db.comments)).value;
      var c := NewComment(id, input.content, render(input.content), input.postId,
                          session.value.id, Some(input.parentId), now);
      db.comments == old(db.comments) + [c]
      && db.notifications == old(db.notifications) + ReplyNotices(parent, session.value.id, noticeId, id, now)
      && o == Returned(Ok(ViewOf(c, SessionAuthor(session.value))))
  {
    var gate := RequireAuth(session);
    if gate.Redirect? {
      return Redirected(gate.path);
    }
    var user := gate.user;
    var parsed := ParseReply(input);
    if parsed.Invalid? {
      return Returned(Err(FirstMessage(parsed.issues)));
    }
    var parentRow := First(CommentWithId(parsed.data.parentId), db.comments);
    if parentRow.None? {
      return Returned(Err("Parent comment not found"));
    }
    var parent := parentRow.value;
    if parent.parentId.Some? {
      return Returned(Err("Cannot reply to a reply"));
    }
    var content := parsed.data.content;
    var c := NewComment(id, content, render(content), parsed.data.postId, user.id,
                        Some(parsed.data.parentId), now);
    db.comments := db.comments + [c];
    db.notifications := db.notifications + ReplyNotices(parent, user.id, noticeId, id, now);
    o := Returned(Ok(ViewOf(c, SessionAuthor(user))));
  }

  /** `UPDATE comments SET hidden = h WHERE id = target`. */
  function SetHidden(rows: seq<CommentRecord>, target: string, h: bool): (r: seq<CommentRecord>)
    ensures |r| == |rows|
    ensures forall i :: 0 <= i < |rows| && rows[i].id == target ==> r[i] == rows[i].(hidden := h)
    ensures forall i :: 0 <= i < |rows| && rows[i].id != target ==> r[i] == rows[i]
  {
    if rows == [] then []
    else [if rows[0].id == target then rows[0].(hidden := h) else rows[0]]
         + SetHidden(rows[1..], target, h)
  }

  /** Hiding or unhiding changes nothing but the flag: content and rendered content stay. */
  lemma SetHiddenOnlyFlag(rows: seq<CommentRecord>, target: string, h: bool)
    ensures forall i :: 0 <= i < |rows| ==>
      SetHidden(rows, target, h)[i].(hidden := rows[i].hidden) == rows[i]
    ensures forall i :: 0 <= i < |rows| ==>
      SetHidden(rows, target, h)[i].content == rows[i].content
      && SetHidden(rows, target, h)[i].renderedContent == rows[i].renderedContent
  {
  }

  /** Hiding a visible comment and then unhiding it restores the table. */
  lemma {:induction false} HideThenUnhideRestores(rows: seq<CommentRecord>, target: string)
    requires forall c :: c in rows && c.id == target ==> !c.hidden
    ensures SetHidden(SetHidden(rows, target, true), target, false) == rows
  {
    if rows != [] {
      HideThenUnhideRestores(rows[1..], target);
    }
  }

  /** Setting the flag twice is setting it once. */
  lemma {:induction false} SetHiddenIdempotent(rows: seq<CommentRecord>, target: string, h: bool)
    ensures SetHidden(SetHidden(rows, target, h), target, h) == SetHidden(rows, target, h)
  {
    if rows != [] {
      SetHiddenIdempotent(rows[1..], target, h);
    }
  }

  /** The notice a moderation action sends to the comment's author, when there is one. */
  function AuthorNotices(authorId: Option<string>, noticeId: string, kind: NotificationType,
                         message: string, referenceId: Option<string>, now: int)
    : (ns: seq<NotificationRecord>)
    ensures |ns| <= 1
    ensures ns != [] <==> Truthy(authorId)
    ensures forall n :: n in ns ==>
      n == NotificationRecord(noticeId, authorId.value, kind, message, referenceId, false, now)
  {
    if Truthy(authorId) then [NotificationRecord(noticeId, authorId.value, kind, message, referenceId, false, now)]
    else []
  }

  /** `hideComment`. */
  method HideComment(db: Database, session: Option<SessionUser>, id: string,
                     noticeId: string, now: int) returns (o: Outcome<ActionResult<Unit>>)
    modifies db`comments, db`notifications
    ensures RequireAdmin(session).Redirect? ==>
      o == Redirected(RequireAdmin(session).path)
      && db.comments == old(db.comments) && db.notifications == old(db.notifications)
    ensures RequireAdmin(session).Pass? && First(CommentWithId(id), old(db.comments)).None? ==>
      o == Returned(Err("Comment not found"))
      && db.comments == old(db.comments) && db.notifications == old(db.notifications)
    ensures RequireAdmin(session).Pass? && First(CommentWithId(id), old(db.comments)).Some? ==>
      o == Returned(Ok(Unit))
      && db.comments == SetHidden(old(db.comments), id, true)
      && db.notifications == old(db.notifications)
           + AuthorNotices(First(CommentWithId(id), old(db.comments)).value.authorId, noticeId,
                           CommentHidden, "Your comment was hidden", Some(id), now)
  {
    var gate := RequireAdmin(session);
    if gate.Redirect? {
      return Redirected(gate.path);
    }
    var row := First(CommentWithId(id), db.comments);
    if row.None? {
      return Returned(Err("Comment not found"));
    }
    db.comments := SetHidden(db.comments, id, true);
    db.notifications := db.notifications
      + AuthorNotices(row.value.authorId, noticeId, CommentHidden, "Your comment was hidden", Some(id), now);
    o := Returned(Ok(Unit));
  }

  /** `unhideComment`: clears the flag and notifies nobody. */
  method UnhideComment(db: Database, session: Option<SessionUser>, id: string)
    returns (o: Outcome<ActionResult<Unit>>)
    modifies db`comments
    ensures RequireAdmin(session).Redirect? ==>
      o == Redirected(RequireAdmin(session).path) && db.comments == old(db.comments)
    ensures RequireAdmin(session).Pass? && First(CommentWithId(id), old(db.comments)).None? ==>
      o == Returned(Err("Comment not found")) && db.comments == old(db.comments)
    ensures RequireAdmin(session).Pass? && First(CommentWithId(id), old(db.comments)).Some? ==>
      o == Returned(Ok(Unit)) && db.comments == SetHidden(old(db.comments), id, false)
    ensures db.notifications == old(db.notifications)
  {
    var gate := RequireAdmin(session);
    if gate.Redirect? {
      return Redirected(gate.path);
    }
    var row := First(CommentWithId(id), db.comments);
    if row.None? {
      return Returned(Err("Comment not found"));
    }
    db.comments := SetHidden(db.comments, id, false);
    o := Returned(Ok(Unit));
  }

  function NotChildOf(id: string): CommentRecord -> bool {
    (c: CommentRecord) => c.parentId != Some(id)
  }

  function NotId(id: string): CommentRecord -> bool {
    (c: CommentRecord) => c.id != id
  }

  /** The two deletes of `deleteComment`: first the direct replies, then the comment. */
  function RemoveThread(rows: seq<CommentRecord>, id: string): seq<CommentRecord> {
    Filter(NotId(id), Filter(NotChildOf(id), rows))
  }

  /** A row of the table goes exactly when it is the target or a direct reply to it; a
      reply to one of those replies stays. */
  lemma RemoveThreadExactly(rows: seq<CommentRecord>, id: string)
    ensures forall c :: c in RemoveThread(rows, id) <==>
      c in rows && c.id != id && c.parentId != Some(id)
  {
  }

  predicate Doomed(id: string, c: CommentRecord) {
    c.id == id || c.parentId == Some(id)
  }

  function DoomedCount(rows: seq<CommentRecord>, id: string): nat {
    if rows == [] then 0 else (if Doomed(id, rows[0]) then 1 else 0) + DoomedCount(rows[1..], id)
  }

  /** The delete removes as many rows as are the target or direct replies to it, and keeps
      the order of the rest. */
  lemma {:induction false} RemoveThreadCount(rows: seq<CommentRecord>, id: string)
    ensures |RemoveThread(rows, id)| == |rows| - DoomedCount(rows, id)
  {
    if rows != [] {
      RemoveThreadCount(rows[1..], id);
      assert rows == [rows[0]] + rows[1..];
      FilterConcat(NotChildOf(id), [rows[0]], rows[1..]);
      FilterConcat(NotId(id), Filter(NotChildOf(id), [rows[0]]), Filter(NotChildOf(id), rows[1..]));
    }
  }

  /** The example of the comment tests: deleting a top-level comment that has two replies
      removes three rows, and deleting one of the replies removes one. */
  lemma DeleteExamples(top: CommentRecord, r1: CommentRecord, r2: CommentRecord)
    requires top.parentId.None? && r1.parentId == Some(top.id) && r2.parentId == Some(top.id)
    requires top.id != r1.id && top.id != r2.id && r1.id != r2.id
    ensures RemoveThread([top, r1, r2], top.id) == []
    ensures RemoveThread([top, r1, r2], r1.id) == [top, r2]
  {
    var rows := [top, r1, r2];
    assert rows[1..] == [r1, r2] && [r1, r2][1..] == [r2] && [r2][1..] == [];
    assert Filter(NotChildOf(top.id), [r2]) == [];
    assert Filter(NotChildOf(top.id), [r1, r2]) == [];
    assert Filter(NotChildOf(top.id), rows) == [top];
    assert [top][1..] == [];
    assert Filter(NotId(top.id), [top]) == [];
    assert Filter(NotChildOf(r1.id), [r2]) == [r2];
    assert Filter(NotChildOf(r1.id), [r1, r2]) == [r1, r2];
    assert Filter(NotChildOf(r1.id), rows) == rows;
    assert Filter(NotId(r1.id), [r2]) == [r2];
    assert Filter(NotId(r1.id), [r1, r2]) == [r2];
    assert Filter(NotId(r1.id), rows) == [top, r2];
  }

  /** `deleteComment`. */
  method DeleteComment(db: Database, session: Option<SessionUser>, id: string,
                       noticeId: string, now: int) returns (o: Outcome<ActionResult<Unit>>)
    modifies db`comments, db`notifications
    ensures RequireAdmin(session).Redirect? ==>
      o == Redirected(RequireAdmin(session).path)
      && db.comments == old(db.comments) && db.notifications == old(db.notifications)
    ensures RequireAdmin(session).Pass? && First(CommentWithId(id), old(db.comments)).None? ==>
      o == Returned(Err("Comment not found"))
      && db.comments == old(db.comments) && db.notifications == old(db.notifications)
    ensures RequireAdmin(session).Pass? && First(CommentWithId(id), old(db.comments)).Some? ==>
      o == Returned(Ok(Unit))
      && db.comments == RemoveThread(old(db.comments), id)
      && db.notifications == old(db.notifications)
           + AuthorNotices(First(CommentWithId(id), old(db.comments)).value.authorId, noticeId,
                           CommentDeleted, "Your comment was deleted", None, now)
  {
    var gate := RequireAdmin(session);
    if gate.Redirect? {
      return Redirected(gate.path);
    }
    var row := First(CommentWithId(id), db.comments);
    if row.None? {
      return Returned(Err("Comment not found"));
    }
    var authorId := row.value.authorId;
    db.comments := Filter(NotChildOf(id), db.comments);
    db.comments := Filter(NotId(id), db.comments);
    db.notifications := db.notifications
      + AuthorNotices(authorId, noticeId, CommentDeleted, "Your comment was deleted", None, now);
    o := Returned(Ok(Unit));
  }

  /** Every comment is top level or replies to a top-level comment present in the table. */
  predicate OneLevel(rows: seq<CommentRecord>) {
    forall c :: c in rows && c.parentId.Some? ==>
      exists p :: p in rows && p.id == c.parentId.value && p.parentId.None?
  }

  /** Adding a reply the way `createReply` does keeps the threads one level deep. */
  lemma ReplyKeepsOneLevel(rows: seq<CommentRecord>, parentId: string, c: CommentRecord)
    requires OneLevel(rows)
    requires First(CommentWithId(parentId), rows).Some?
    requires First(CommentWithId(parentId), rows).value.parentId.None?
    requires c.parentId == Some(parentId)
    ensures OneLevel(rows + [c])
  {
    var p := First(CommentWithId(parentId), rows).value;
    assert p in rows + [c];
    forall d | d in rows + [c] && d.parentId.Some?
      ensures exists q :: q in rows + [c] && q.id == d.parentId.value && q.parentId.None?
    {
      if d == c {
        assert p in rows + [c] && p.id == d.parentId.value;
      } else {
        var q :| q in rows && q.id == d.parentId.value && q.parentId.None?;
        assert q in rows + [c];
      }
    }
  }

  /** Deleting keeps the threads one level deep: a surviving reply's parent survives. */
  lemma DeleteKeepsOneLevel(rows: seq<CommentRecord>, id: string)
    requires OneLevel(rows)
    ensures OneLevel(RemoveThread(rows, id))
  {
    RemoveThreadExactly(rows, id);
    var kept := RemoveThread(rows, id);
    forall d | d in kept && d.parentId.Some?
      ensures exists q :: q in kept && q.id == d.parentId.value && q.parentId.None?
    {
      var q :| q in rows && q.id == d.parentId.value && q.parentId.None?;
      assert q in kept;
    }
  }
}
