/** The input schemas for a new comment and a new reply. */
module CommentValidators {
  import opened Zod
  import Constants

  datatype CommentInput = CommentInput(postId: string, content: string)
  datatype ReplyInput = ReplyInput(postId: string, parentId: string, content: string)

  /** `createCommentSchema`. Neither field is trimmed, so the data is the input itself. */
  function ParseComment(input: CommentInput): (p: Parsed<CommentInput>)
    ensures p.Valid? <==>
      input.postId != [] && 1 <= JsLength(input.content) <= Constants.MAX_COMMENT_LENGTH
    ensures p.Valid? ==> p.data == input
    ensures p.Invalid? ==>
      p.issues != [] && p.issues[0] == (if input.postId == [] then "Post ID is required"
        else if input.content == [] then "Comment cannot be empty"
        else "Comment must be 5000 characters or less")
  {
    var issues := Min(input.postId, 1, "Post ID is required")
      + Min(input.content, 1, "Comment cannot be empty")
      + Max(input.content, 5000, "Comment must be 5000 characters or less");
    if issues == [] then Valid(input) else Invalid(issues)
  }

  /** `createReplySchema`: the comment rules plus a non-empty `parentId`, with the
      reply wording in the content messages. */
  function ParseReply(input: ReplyInput): (p: Parsed<ReplyInput>)
    ensures p.Valid? <==>
      input.postId != [] && input.parentId != []
      && 1 <= JsLength(input.content) <= Constants.MAX_COMMENT_LENGTH
    ensures p.Valid? ==> p.data == input
    ensures p.Invalid? ==>
      p.issues != [] && p.issues[0] == (if input.postId == [] then "Post ID is required"
        else if input.parentId == [] then "Parent comment ID is required"
        else if input.content == [] then "Reply cannot be empty"
        else "Reply must be 5000 characters or less")
  {
    var issues := Min(input.postId, 1, "Post ID is required")
      + Min(input.parentId, 1, "Parent comment ID is required")
      + Min(input.content, 1, "Reply cannot be empty")
      + Max(input.content, 5000, "Reply must be 5000 characters or less");
    if issues == [] then Valid(input) else Invalid(issues)
  }

  /** A reply is acceptable exactly when the same post and content would make an
      acceptable comment and the parent id is non-empty. */
  lemma ReplyIsCommentPlusParent(input: ReplyInput)
    ensures ParseReply(input).Valid? <==>
      ParseComment(CommentInput(input.postId, input.content)).Valid? && input.parentId != []
  {
  }
}
