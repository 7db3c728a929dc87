/** The input schemas of `createProject` and `updateProject`.

    Neither schema declares `productUrl`. A Zod object drops the keys it does not declare,
    so the parsed data never carries the product link the form sends; the model keeps that
    field in the data types and shows it `Absent` after parsing. */
module ProjectValidators {
  import opened Wrappers
  import opened Schema
  import opened Text
  import opened Zod

  /** What a caller hands to `createProject`. */
  datatype CreateProjectInput = CreateProjectInput(
    title: string, description: Field<string>, githubUrl: Field<string>, imageUrl: Field<string>,
    productUrl: Field<string>, status: Option<Status>)

  /** The parsed form of a create: the title and description trimmed, the status defaulted. */
  datatype CreateProjectData = CreateProjectData(
    title: string, description: Field<string>, githubUrl: Field<string>, imageUrl: Field<string>,
    productUrl: Field<string>, status: Status)

  /** What a caller hands to `updateProject`; every field may be left out. */
  datatype UpdateProjectInput = UpdateProjectInput(
    title: Option<string>, description: Field<string>, githubUrl: Field<string>,
    imageUrl: Field<string>, productUrl: Field<string>, status: Option<Status>)

  const GITHUB_PREFIX := "https://github.com/"
  const GITHUB_URL_MESSAGE := "GitHub URL must be a valid URL"
  const GITHUB_PREFIX_MESSAGE := "Must be a GitHub URL (https://github.com/...)"
  const IMAGE_URL_MESSAGE := "Image URL must be a valid URL"

  /** The GitHub link rule: a URL (the parameter `isUrl` stands for `z.string().url()`)
      that begins with the GitHub prefix. */
  predicate GithubUrlOk(isUrl: string -> bool, url: string) {
    isUrl(url) && StartsWith(url, GITHUB_PREFIX)
  }

  function TitleIssues(title: string): seq<string> {
    Min(title, 1, "Title is required") + Max(title, 255, "Title must be 255 characters or less")
  }

  function DescriptionIssues(description: Field<string>): seq<string> {
    if description.Present? then Max(description.value, 1000, "Description must be 1000 characters or less")
    else []
  }

  /** Both checks of the GitHub link run, so a non-URL not starting with the prefix gets
      two issues. */
  function GithubIssues(isUrl: string -> bool, githubUrl: Field<string>): seq<string> {
    if githubUrl.Present? then
      Check(!isUrl(githubUrl.value), GITHUB_URL_MESSAGE)
        + Check(!StartsWith(githubUrl.value, GITHUB_PREFIX), GITHUB_PREFIX_MESSAGE)
    else []
  }

  function ImageIssues(isUrl: string -> bool, imageUrl: Field<string>): seq<string> {
    if imageUrl.Present? then Check(!isUrl(imageUrl.value), IMAGE_URL_MESSAGE) else []
  }

  /** The rules both schemas apply to the optional fields. */
  predicate OptionalFieldsOk(isUrl: string -> bool, description: Field<string>, githubUrl: Field<string>,
                             imageUrl: Field<string>) {
    (description.Present? ==> JsLength(description.value) <= 1000)
    && (githubUrl.Present? ==> GithubUrlOk(isUrl, githubUrl.value))
    && (imageUrl.Present? ==> isUrl(imageUrl.value))
  }

  function OptionalIssues(isUrl: string -> bool, description: Field<string>, githubUrl: Field<string>,
                          imageUrl: Field<string>): (issues: seq<string>)
    ensures issues == [] <==> OptionalFieldsOk(isUrl, description, githubUrl, imageUrl)
  {
    var d, g, m := DescriptionIssues(description), GithubIssues(isUrl, githubUrl), ImageIssues(isUrl, imageUrl);
    HeadOfConcat(g, m);
    HeadOfConcat(d, g + m);
    d + (g + m)
  }

  /** The message of the first failing rule of a create, in field order. */
  function CreateFirstIssue(input: CreateProjectInput, isUrl: string -> bool): string {
    if input.title == [] then "Title is required"
    else if JsLength(input.title) > 255 then "Title must be 255 characters or less"
    else if input.description.Present? && JsLength(input.description.value) > 1000 then
      "Description must be 1000 characters or less"
    else if input.githubUrl.Present? && !isUrl(input.githubUrl.value) then GITHUB_URL_MESSAGE
    else if input.githubUrl.Present? && !StartsWith(input.githubUrl.value, GITHUB_PREFIX) then
      GITHUB_PREFIX_MESSAGE
    else IMAGE_URL_MESSAGE
  }

  lemma CreateIssuesHead(input: CreateProjectInput, isUrl: string -> bool)
    ensures var issues := TitleIssues(input.title)
      + OptionalIssues(isUrl, input.description, input.githubUrl, input.imageUrl);
      issues != [] ==> issues[0] == CreateFirstIssue(input, isUrl)
  {
    var d := DescriptionIssues(input.description);
    var g := GithubIssues(isUrl, input.githubUrl);
    var m := ImageIssues(isUrl, input.imageUrl);
    var t := TitleIssues(input.title);
    HeadOfConcat(g, m);
    HeadOfConcat(d, g + m);
    HeadOfConcat(t, d + (g + m));
    HeadOfConcat(Min(input.title, 1, "Title is required"),
      Max(input.title, 255, "Title must be 255 characters or less"));
    if input.githubUrl.Present? {
      HeadOfConcat(Check(!isUrl(input.githubUrl.value), GITHUB_URL_MESSAGE),
        Check(!StartsWith(input.githubUrl.value, GITHUB_PREFIX), GITHUB_PREFIX_MESSAGE));
    }
  }

  /** `createProjectSchema` as written: `productUrl` is not declared and is dropped. */
  function ParseCreateProject(input: CreateProjectInput, isUrl: string -> bool)
    : (p: Parsed<CreateProjectData>)
    ensures p.Valid? <==>
      1 <= JsLength(input.title) <= 255
      && OptionalFieldsOk(isUrl, input.description, input.githubUrl, input.imageUrl)
    ensures p.Valid? ==>
      p.data == CreateProjectData(Trim(input.title), TrimField(input.description), input.githubUrl,
        input.imageUrl, Absent, input.status.GetOr(Draft))
    ensures p.Invalid? ==> p.issues != [] && p.issues[0] == CreateFirstIssue(input, isUrl)
  {
    var issues := TitleIssues(input.title)
      + OptionalIssues(isUrl, input.description, input.githubUrl, input.imageUrl);
    HeadOfConcat(TitleIssues(input.title), OptionalIssues(isUrl, input.description, input.githubUrl, input.imageUrl));
    CreateIssuesHead(input, isUrl);
    if issues == [] then
      Valid(CreateProjectData(Trim(input.title), TrimField(input.description), input.githubUrl,
        input.imageUrl, Absent, input.status.GetOr(Draft)))
    else Invalid(issues)
  }

  /** The message of the first failing rule of an update, in field order. */
  function UpdateFirstIssue(input: UpdateProjectInput, isUrl: string -> bool): string {
    if input.title.Some? && input.title.value == [] then "Title is required"
    else if input.title.Some? && JsLength(input.title.value) > 255 then
      "Title must be 255 characters or less"
    else if input.description.Present? && JsLength(input.description.value) > 1000 then
      "Description must be 1000 characters or less"
    else if input.githubUrl.Present? && !isUrl(input.githubUrl.value) then GITHUB_URL_MESSAGE
    else if input.githubUrl.Present? && !StartsWith(input.githubUrl.value, GITHUB_PREFIX) then
      GITHUB_PREFIX_MESSAGE
    else IMAGE_URL_MESSAGE
  }

  lemma UpdateIssuesHead(input: UpdateProjectInput, isUrl: string -> bool)
    ensures var issues := (if input.title.Some? then TitleIssues(input.title.value) else [])
      + OptionalIssues(isUrl, input.description, input.githubUrl, input.imageUrl);
      issues != [] ==> issues[0] == UpdateFirstIssue(input, isUrl)
  {
    var d := DescriptionIssues(input.description);
    var g := GithubIssues(isUrl, input.githubUrl);
    var m := ImageIssues(isUrl, input.imageUrl);
    var t := if input.title.Some? then TitleIssues(input.title.value) else [];
    HeadOfConcat(g, m);
    HeadOfConcat(d, g + m);
    HeadOfConcat(t, d + (g + m));
    if input.title.Some? {
      HeadOfConcat(Min(input.title.value, 1, "Title is required"),
        Max(input.title.value, 255, "Title must be 255 characters or less"));
    }
    if input.githubUrl.Present? {
      HeadOfConcat(Check(!isUrl(input.githubUrl.value), GITHUB_URL_MESSAGE),
        Check(!StartsWith(input.githubUrl.value, GITHUB_PREFIX), GITHUB_PREFIX_MESSAGE));
    }
  }

  /** `updateProjectSchema` as written: each rule applies only to a given field, there is
      no status default, and `productUrl` is dropped. */
  function ParseUpdateProject(input: UpdateProjectInput, isUrl: string -> bool)
    : (p: Parsed<UpdateProjectInput>)
    ensures p.Valid? <==>
      (input.title.Some? ==> 1 <= JsLength(input.title.value) <= 255)
      && OptionalFieldsOk(isUrl, input.description, input.githubUrl, input.imageUrl)
    ensures p.Valid? ==>
      p.data == input.(title := if input.title.Some? then Some(Trim(input.title.value)) else None,
                       description := TrimField(input.description), productUrl := Absent)
    ensures p.Invalid? ==> p.issues != [] && p.issues[0] == UpdateFirstIssue(input, isUrl)
  {
    var t := if input.title.Some? then TitleIssues(input.title.value) else [];
    var issues := t + OptionalIssues(isUrl, input.description, input.githubUrl, input.imageUrl);
    HeadOfConcat(t, OptionalIssues(isUrl, input.description, input.githubUrl, input.imageUrl));
    UpdateIssuesHead(input, isUrl);
    if issues == [] then
      Valid(input.(title := if input.title.Some? then Some(Trim(input.title.value)) else None,
                   description := TrimField(input.description), productUrl := Absent))
    else Invalid(issues)
  }

  /** The evident intent: the parsed create carries the product link it was given. */
  function ParseCreateProjectKeepingProductUrl(input: CreateProjectInput, isUrl: string -> bool)
    : (p: Parsed<CreateProjectData>)
    ensures p.Valid? <==> ParseCreateProject(input, isUrl).Valid?
    ensures p.Valid? ==> p.data == ParseCreateProject(input, isUrl).data.(productUrl := input.productUrl)
    ensures p.Invalid? ==> p == ParseCreateProject(input, isUrl)
  {
    match ParseCreateProject(input, isUrl)
    case Valid(d) => Valid(d.(productUrl := input.productUrl))
    case Invalid(issues) => Invalid(issues)
  }

  /** The evident intent on update: a given product link survives the parse. */
  function ParseUpdateProjectKeepingProductUrl(input: UpdateProjectInput, isUrl: string -> bool)
    : (p: Parsed<UpdateProjectInput>)
    ensures p.Valid? <==> ParseUpdateProject(input, isUrl).Valid?
    ensures p.Valid? ==> p.data == ParseUpdateProject(input, isUrl).data.(productUrl := input.productUrl)
    ensures p.Invalid? ==> p == ParseUpdateProject(input, isUrl)
  {
    match ParseUpdateProject(input, isUrl)
    case Valid(d) => Valid(d.(productUrl := input.productUrl))
    case Invalid(issues) => Invalid(issues)
  }

  /** Every field of the update schema is optional: the empty update is valid. */
  lemma EmptyProjectUpdateIsValid(isUrl: string -> bool)
    ensures ParseUpdateProject(UpdateProjectInput(None, Absent, Absent, Absent, Absent, None), isUrl)
      == Valid(UpdateProjectInput(None, Absent, Absent, Absent, Absent, None))
  {
  }

  /** A product link, whatever it is, never survives either parse as written. */
  lemma ProductUrlDropped(create: CreateProjectInput, update: UpdateProjectInput, isUrl: string -> bool)
    requires create.productUrl.Present? && update.productUrl.Present?
    ensures ParseCreateProject(create, isUrl).Valid? ==> ParseCreateProject(create, isUrl).data.productUrl.Absent?
    ensures ParseUpdateProject(update, isUrl).Valid? ==> ParseUpdateProject(update, isUrl).data.productUrl.Absent?
  {
  }
}
