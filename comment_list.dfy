/** What the comment list shows for a thread list: one card per comment, a reply form under
    each top-level card, and the replies indented below their parent. */
module CommentList {
  import opened Wrappers
  import opened Types
  import opened Text
  import opened Seqs

  /** The avatar is the author's picture when there is one, else a one-letter badge. */
  datatype Avatar = Picture(src: string, alt: string) | Badge(letter: string)

  /** A hidden comment's text is replaced by the `[removed]` placeholder. */
  datatype Body = Removed | Html(html: string)

  datatype ReplyForm = ReplyForm(postId: string, parentId: string)

  /** One rendered comment. The formatted date is left out; the card keeps the timestamp. */
  datatype Card = Card(avatar: Avatar, displayName: string, createdAt: int, body: Body,
                       replyForm: Option<ReplyForm>)

  /** A top-level card with its anchor and, when it has replies, the indented reply block. */
  datatype Entry = Entry(anchor: string, card: Card, replyBlock: Option<seq<Card>>)

  datatype Listing = Message(text: string) | Entries(entries: seq<Entry>)

  const NO_COMMENTS := "No comments yet. Be the first to share your thoughts!"

  /** The badge letter: the upper-cased first character of the name, of the email when the
      name is null or empty, and `?` when both are empty. */
  function BadgeLetter(author: UserView): (r: string)
    ensures |r| == 1 && !IsLower(r[0])
    ensures Truthy(author.name) ==> r == [UpperChar(author.name.value[0])]
    ensures !Truthy(author.name) && author.email != [] ==> r == [UpperChar(author.email[0])]
    ensures !Truthy(author.name) && author.email == [] ==> r == "?"
  {
    var c := if Truthy(author.name) then author.name.value[0]
      else if author.email != [] then author.email[0]
      else '?';
    [UpperChar(c)]
  }

  /** `CommentCard`. */
  function CardOf(c: CommentView, postId: string, isReply: bool): (card: Card)
    ensures card.body == Removed <==> c.hidden
    ensures !c.hidden ==> card.body == Html(c.renderedContent)
    ensures card.replyForm.Some? <==> !isReply
    ensures !isReply ==> card.replyForm == Some(ReplyForm(postId, c.id))
    ensures card.displayName == (if c.author.name.Some? then c.author.name.value else "Anonymous")
    ensures card.avatar.Picture? <==> Truthy(c.author.image)
    ensures card.avatar.Badge? ==> card.avatar.letter == BadgeLetter(c.author)
  {
    Card(
      if Truthy(c.author.image) then Picture(c.author.image.value, c.author.name.GetOr("User"))
      else Badge(BadgeLetter(c.author)),
      c.author.name.GetOr("Anonymous"),
      c.createdAt,
      if c.hidden then Removed else Html(c.renderedContent),
      if isReply then None else Some(ReplyForm(postId, c.id)))
  }

  function ReplyCard(postId: string): CommentView -> Card {
    (c: CommentView) => CardOf(c, postId, true)
  }

  function EntryOf(postId: string): CommentView -> Entry {
    (c: CommentView) => Entry("comment-" + c.id, CardOf(c, postId, false),
      if |c.replies| > 0 then Some(Map(ReplyCard(postId), c.replies)) else None)
  }

  /** `CommentList`. */
  function ListingOf(comments: seq<CommentView>, postId: string): (l: Listing)
    ensures l.Message? <==> comments == []
    ensures l.Message? ==> l.text == NO_COMMENTS
    ensures l.Entries? ==> |l.entries| == |comments|
  {
    if |comments| == 0 then Message(NO_COMMENTS) else Entries(Map(EntryOf(postId), comments))
  }

  /** The layout of a non-empty list: every entry is the card of its comment with a reply
      form for it; the reply block is there exactly when the comment has replies, and its
      cards are those of the replies, in order, none with a reply form. */
  lemma ListingLayout(comments: seq<CommentView>, postId: string, i: nat)
    requires i < |comments|
    ensures ListingOf(comments, postId).Entries?
    ensures var e := ListingOf(comments, postId).entries[i];
      e.anchor == "comment-" + comments[i].id
      && e.card == CardOf(comments[i], postId, false)
      && e.card.replyForm == Some(ReplyForm(postId, comments[i].id))
      && (e.replyBlock.Some? <==> comments[i].replies != [])
      && (e.replyBlock.Some? ==>
            |e.replyBlock.value| == |comments[i].replies|
            && forall j :: 0 <= j < |e.replyBlock.value| ==>
                 e.replyBlock.value[j] == CardOf(comments[i].replies[j], postId, true)
                 && e.replyBlock.value[j].replyForm.None?)
  {
    var e := ListingOf(comments, postId).entries[i];
    assert e == EntryOf(postId)(comments[i]);
  }
}
