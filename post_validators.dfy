/** The input schemas of `createPost`, `updatePost` and `changePostStatus`. */
module PostValidators {
  import opened Wrappers
  import opened Schema
  import opened Text
  import opened Zod

  /** What a caller hands to `createPost`; `status` and `tagIds` may be left out. */
  datatype CreatePostInput = CreatePostInput(
    title: string, content: string, excerpt: Field<string>, coverImageUrl: Field<string>,
    status: Option<Status>, tagIds: Option<seq<string>>)

  /** The parsed form: the title and excerpt trimmed, the defaults filled in. */
  datatype CreatePostData = CreatePostData(
    title: string, content: string, excerpt: Field<string>, coverImageUrl: Field<string>,
    status: Status, tagIds: seq<string>)

  /** What a caller hands to `updatePost`: every field may be left out. */
  datatype UpdatePostInput = UpdatePostInput(
    title: Option<string>, content: Option<string>, excerpt: Field<string>,
    coverImageUrl: Field<string>, status: Option<Status>, tagIds: Option<seq<string>>)

  const COVER_MESSAGE := "Cover image must be a valid URL or an uploaded file path"
  const UPLOADS_PREFIX := "/api/uploads/"

  /** The cover image rule: an uploaded file's path, or anything `z.string().url()`
      accepts; that URL check is the parameter `isUrl`. */
  predicate CoverImageOk(isUrl: string -> bool, url: string) {
    StartsWith(url, UPLOADS_PREFIX) || isUrl(url)
  }

  function TitleIssues(title: string): seq<string> {
    Min(title, 1, "Title is required") + Max(title, 255, "Title must be 255 characters or less")
  }

  function ContentIssues(content: string): seq<string> {
    Min(content, 1, "Content is required")
  }

  function ExcerptIssues(excerpt: Field<string>): seq<string> {
    if excerpt.Present? then Max(excerpt.value, 500, "Excerpt must be 500 characters or less")
    else []
  }

  function CoverIssues(isUrl: string -> bool, cover: Field<string>): seq<string> {
    if cover.Present? then Check(!CoverImageOk(isUrl, cover.value), COVER_MESSAGE) else []
  }

  /** `z.array(z.string().min(1))`: one issue, with Zod's own message, per empty id. */
  function TagIdIssues(ids: seq<string>): (issues: seq<string>)
    ensures issues == [] <==> forall i :: 0 <= i < |ids| ==> ids[i] != []
    ensures forall m :: m in issues ==> m == DEFAULT_MIN_ONE_MESSAGE
  {
    if ids == [] then []
    else Min(ids[0], 1, DEFAULT_MIN_ONE_MESSAGE) + TagIdIssues(ids[1..])
  }

  function CreateIssues(input: CreatePostInput, isUrl: string -> bool): seq<string> {
    TitleIssues(input.title) + (ContentIssues(input.content) + (ExcerptIssues(input.excerpt)
      + (CoverIssues(isUrl, input.coverImageUrl) + TagIdsIssues(input.tagIds))))
  }

  function TagIdsIssues(tagIds: Option<seq<string>>): seq<string> {
    if tagIds.Some? then TagIdIssues(tagIds.value) else []
  }

  /** The conditions of the create schema, field by field. */
  predicate CreateOk(input: CreatePostInput, isUrl: string -> bool) {
    1 <= JsLength(input.title) <= 255 && input.content != []
    && (input.excerpt.Present? ==> JsLength(input.excerpt.value) <= 500)
    && (input.coverImageUrl.Present? ==> CoverImageOk(isUrl, input.coverImageUrl.value))
    && (input.tagIds.Some? ==> forall i :: 0 <= i < |input.tagIds.value| ==> input.tagIds.value[i] != [])
  }

  /** The message of the first failing rule, in field order. */
  function CreateFirstIssue(input: CreatePostInput, isUrl: string -> bool): string {
    if input.title == [] then "Title is required"
    else if JsLength(input.title) > 255 then "Title must be 255 characters or less"
    else if input.content == [] then "Content is required"
    else if input.excerpt.Present? && JsLength(input.excerpt.value) > 500 then
      "Excerpt must be 500 characters or less"
    else if input.coverImageUrl.Present? && !CoverImageOk(isUrl, input.coverImageUrl.value) then
      COVER_MESSAGE
    else DEFAULT_MIN_ONE_MESSAGE
  }

  lemma CreateIssuesSpec(input: CreatePostInput, isUrl: string -> bool)
    ensures CreateIssues(input, isUrl) == [] <==> CreateOk(input, isUrl)
    ensures CreateIssues(input, isUrl) != [] ==>
      CreateIssues(input, isUrl)[0] == CreateFirstIssue(input, isUrl)
  {
    var t, c, e := TitleIssues(input.title), ContentIssues(input.content), ExcerptIssues(input.excerpt);
    var u, g := CoverIssues(isUrl, input.coverImageUrl), TagIdsIssues(input.tagIds);
    HeadOfConcat(u, g);
    HeadOfConcat(e, u + g);
    HeadOfConcat(c, e + (u + g));
    HeadOfConcat(t, c + (e + (u + g)));
    HeadOfConcat(Min(input.title, 1, "Title is required"),
      Max(input.title, 255, "Title must be 255 characters or less"));
    if g != [] {
      assert g[0] in g;
    }
  }

  /** `createPostSchema`. */
  function ParseCreatePost(input: CreatePostInput, isUrl: string -> bool)
    : (p: Parsed<CreatePostData>)
    ensures p.Valid? <==>
      1 <= JsLength(input.title) <= 255 && input.content != []
      && (input.excerpt.Present? ==> JsLength(input.excerpt.value) <= 500)
      && (input.coverImageUrl.Present? ==> CoverImageOk(isUrl, input.coverImageUrl.value))
      && (input.tagIds.Some? ==> forall i :: 0 <= i < |input.tagIds.value| ==> input.tagIds.value[i] != [])
    ensures p.Valid? ==>
      p.data == CreatePostData(Trim(input.title), input.content, TrimField(input.excerpt),
        input.coverImageUrl, input.status.GetOr(Draft), input.tagIds.GetOr([]))
    ensures p.Invalid? ==>
      p.issues != [] && p.issues[0] == CreateFirstIssue(input, isUrl)
  {
    var issues := CreateIssues(input, isUrl);
    CreateIssuesSpec(input, isUrl);
    if issues == [] then
      Valid(CreatePostData(Trim(input.title), input.content, TrimField(input.excerpt),
        input.coverImageUrl, input.status.GetOr(Draft), input.tagIds.GetOr([])))
    else Invalid(issues)
  }

  /** The parsed update: the title and excerpt trimmed when given; no defaults. */
  function UpdateData(input: UpdatePostInput): (d: UpdatePostInput)
    ensures d.title.Some? <==> input.title.Some?
    ensures input.title.Some? ==> d.title.value == Trim(input.title.value)
    ensures d.excerpt == TrimField(input.excerpt)
    ensures d.content == input.content && d.coverImageUrl == input.coverImageUrl
    ensures d.status == input.status && d.tagIds == input.tagIds
  {
    input.(title := if input.title.Some? then Some(Trim(input.title.value)) else None,
           excerpt := TrimField(input.excerpt))
  }

  function UpdateIssues(input: UpdatePostInput, isUrl: string -> bool): seq<string> {
    (if input.title.Some? then TitleIssues(input.title.value) else [])
      + ((if input.content.Some? then ContentIssues(input.content.value) else [])
      + (ExcerptIssues(input.excerpt) + (CoverIssues(isUrl, input.coverImageUrl)
      + TagIdsIssues(input.tagIds))))
  }

  /** The message of the first failing rule of the update schema, in field order. */
  function UpdateFirstIssue(input: UpdatePostInput, isUrl: string -> bool): string {
    if input.title.Some? && input.title.value == [] then "Title is required"
    else if input.title.Some? && JsLength(input.title.value) > 255 then
      "Title must be 255 characters or less"
    else if input.content.Some? && input.content.value == [] then "Content is required"
    else if input.excerpt.Present? && JsLength(input.excerpt.value) > 500 then
      "Excerpt must be 500 characters or less"
    else if input.coverImageUrl.Present? && !CoverImageOk(isUrl, input.coverImageUrl.value) then
      COVER_MESSAGE
    else DEFAULT_MIN_ONE_MESSAGE
  }

  lemma UpdateIssuesHead(input: UpdatePostInput, isUrl: string -> bool)
    ensures UpdateIssues(input, isUrl) != [] ==>
      UpdateIssues(input, isUrl)[0] == UpdateFirstIssue(input, isUrl)
  {
    var t := if input.title.Some? then TitleIssues(input.title.value) else [];
    var c := if input.content.Some? then ContentIssues(input.content.value) else [];
    var e, u, g := ExcerptIssues(input.excerpt), CoverIssues(isUrl, input.coverImageUrl), TagIdsIssues(input.tagIds);
    HeadOfConcat(u, g);
    HeadOfConcat(e, u + g);
    HeadOfConcat(c, e + (u + g));
    HeadOfConcat(t, c + (e + (u + g)));
    if input.title.Some? {
      HeadOfConcat(Min(input.title.value, 1, "Title is required"),
        Max(input.title.value, 255, "Title must be 255 characters or less"));
    }
    if g != [] {
      assert g[0] in g;
    }
  }

  /** `updatePostSchema`: each rule of the create schema, applied only to the fields
      that are given. */
  function ParseUpdatePost(input: UpdatePostInput, isUrl: string -> bool)
    : (p: Parsed<UpdatePostInput>)
    ensures p.Valid? <==>
      (input.title.Some? ==> 1 <= JsLength(input.title.value) <= 255)
      && (input.content.Some? ==> input.content.value != [])
      && (input.excerpt.Present? ==> JsLength(input.excerpt.value) <= 500)
      && (input.coverImageUrl.Present? ==> CoverImageOk(isUrl, input.coverImageUrl.value))
      && (input.tagIds.Some? ==> forall i :: 0 <= i < |input.tagIds.value| ==> input.tagIds.value[i] != [])
    ensures p.Valid? ==> p.data == UpdateData(input)
    ensures p.Invalid? ==> p.issues != [] && p.issues[0] == UpdateFirstIssue(input, isUrl)
  {
    var issues := UpdateIssues(input, isUrl);
    UpdateIssuesHead(input, isUrl);
    if issues == [] then Valid(UpdateData(input)) else Invalid(issues)
  }

  /** `changePostStatusSchema`; the status is typed, so only the id can fail. */
  function ParseChangeStatus(postId: string, status: Status): (p: Parsed<(string, Status)>)
    ensures p.Valid? <==> postId != []
    ensures p.Valid? ==> p.data == (postId, status)
    ensures p.Invalid? ==> p.issues == ["Post ID is required"]
  {
    var issues := Min(postId, 1, "Post ID is required");
    if issues == [] then Valid((postId, status)) else Invalid(issues)
  }

  /** The empty update `{}` is valid and changes no field. */
  lemma EmptyUpdateIsValid(isUrl: string -> bool)
    ensures ParseUpdatePost(UpdatePostInput(None, None, Absent, Absent, None, None), isUrl)
      == Valid(UpdatePostInput(None, None, Absent, Absent, None, None))
  {
  }

  /** An empty title, or empty content, is rejected on create. */
  lemma EmptyTitleOrContentRejected(input: CreatePostInput, isUrl: string -> bool)
    requires input.title == [] || input.content == []
    ensures ParseCreatePost(input, isUrl).Invalid?
  {
  }

  /** A present but null excerpt or cover image passes both schemas and stays null. */
  lemma NullFieldsAccepted(input: CreatePostInput, isUrl: string -> bool)
    requires input.excerpt.Null? && input.coverImageUrl.Null?
    requires 1 <= JsLength(input.title) <= 255 && input.content != [] && input.tagIds.None?
    ensures ParseCreatePost(input, isUrl).Valid?
    ensures ParseCreatePost(input, isUrl).data.excerpt.Null?
    ensures ParseCreatePost(input, isUrl).data.coverImageUrl.Null?
    ensures ParseCreatePost(input, isUrl).data.status == input.status.GetOr(Draft)
    ensures ParseCreatePost(input, isUrl).data.tagIds == []
  {
  }

  /** Every path under the uploads route is an acceptable cover image, URL or not. */
  lemma UploadedCoverAccepted(isUrl: string -> bool, name: string)
    ensures CoverImageOk(isUrl, UPLOADS_PREFIX + name)
  {
    assert (UPLOADS_PREFIX + name)[..|UPLOADS_PREFIX|] == UPLOADS_PREFIX;
  }

  /** A string that neither is a URL nor starts with the uploads prefix, such as
      "not-a-url", is rejected as a cover image. */
  lemma NotAUrlRejected(isUrl: string -> bool, input: CreatePostInput)
    requires input.coverImageUrl == Present("not-a-url") && !isUrl("not-a-url")
    ensures ParseCreatePost(input, isUrl).Invalid?
  {
    var s := "not-a-url";
    assert s[0] != UPLOADS_PREFIX[0];
    assert !StartsWith(s, UPLOADS_PREFIX);
  }
}
