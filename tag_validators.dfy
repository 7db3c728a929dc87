/** The tag colour palette and the input schemas of `createTag` and `updateTag`. */
module TagValidators {
  import opened Text
  import opened Zod

  /** The colours the tag form offers. */
  const TAG_COLOR_PALETTE: seq<string> := [
    "#e4e669", "#d93f0b", "#0075ca", "#cfd3d7", "#a2eeef", "#7057ff",
    "#008672", "#e11d48", "#0e8a16", "#1d76db", "#5319e7", "#b60205"]

  /** The column default of `tags.color`. */
  const DEFAULT_TAG_COLOR := "#6e7781"

  const COLOR_MESSAGE := "Color must be a valid hex color"

  /** `/^#[0-9a-fA-F]{6}$/`: a hash and exactly six hex digits, either case. */
  predicate IsHexColor(s: string) {
    |s| == 7 && s[0] == '#' && forall i :: 1 <= i < 7 ==> IsHexDigit(s[i])
  }

  datatype TagInput = TagInput(name: string, color: string)

  datatype UpdateTagInput = UpdateTagInput(tagId: string, name: string, color: string)

  function NameIssues(name: string): seq<string> {
    Min(name, 1, "Name is required") + Max(name, 50, "Name must be 50 characters or less")
  }

  function ColorIssues(color: string): seq<string> {
    Check(!IsHexColor(color), COLOR_MESSAGE)
  }

  /** `createTagSchema`: the name's length is checked before it is trimmed. */
  function ParseCreateTag(input: TagInput): (p: Parsed<TagInput>)
    ensures p.Valid? <==> 1 <= JsLength(input.name) <= 50 && IsHexColor(input.color)
    ensures p.Valid? ==> p.data == TagInput(Trim(input.name), input.color)
    ensures p.Invalid? ==>
      p.issues != [] && p.issues[0] == (if input.name == [] then "Name is required"
        else if JsLength(input.name) > 50 then "Name must be 50 characters or less"
        else COLOR_MESSAGE)
  {
    var issues := NameIssues(input.name) + ColorIssues(input.color);
    if issues == [] then Valid(TagInput(Trim(input.name), input.color)) else Invalid(issues)
  }

  /** `updateTagSchema`: the create rules and a non-empty tag id, checked first. */
  function ParseUpdateTag(input: UpdateTagInput): (p: Parsed<UpdateTagInput>)
    ensures p.Valid? <==>
      input.tagId != [] && 1 <= JsLength(input.name) <= 50 && IsHexColor(input.color)
    ensures p.Valid? ==> p.data == UpdateTagInput(input.tagId, Trim(input.name), input.color)
    ensures p.Invalid? ==>
      p.issues != [] && p.issues[0] == (if input.tagId == [] then "Tag ID is required"
        else if input.name == [] then "Name is required"
        else if JsLength(input.name) > 50 then "Name must be 50 characters or less"
        else COLOR_MESSAGE)
  {
    var issues := Min(input.tagId, 1, "Tag ID is required")
      + (NameIssues(input.name) + ColorIssues(input.color));
    if issues == [] then Valid(UpdateTagInput(input.tagId, Trim(input.name), input.color))
    else Invalid(issues)
  }

  /** The update schema accepts exactly the inputs whose name and colour the create schema
      accepts and whose tag id is not empty, with the same parsed name. */
  lemma UpdateExtendsCreate(input: UpdateTagInput)
    ensures ParseUpdateTag(input).Valid? <==>
      input.tagId != [] && ParseCreateTag(TagInput(input.name, input.color)).Valid?
    ensures ParseUpdateTag(input).Valid? ==>
      ParseUpdateTag(input).data.name == ParseCreateTag(TagInput(input.name, input.color)).data.name
  {
  }

  /** Every palette colour, and the column default, passes the colour rule. */
  lemma PaletteIsValid()
    ensures forall i :: 0 <= i < |TAG_COLOR_PALETTE| ==> IsHexColor(TAG_COLOR_PALETTE[i])
    ensures IsHexColor(DEFAULT_TAG_COLOR)
  {
    forall i | 0 <= i < |TAG_COLOR_PALETTE| ensures IsHexColor(TAG_COLOR_PALETTE[i]) {
      var c := TAG_COLOR_PALETTE[i];
      assert |c| == 7 && c[0] == '#';
      forall k | 1 <= k < 7 ensures IsHexDigit(c[k]) {
      }
    }
  }

  /** An empty name or a colour without the hash is rejected. */
  lemma BadTagRejected(input: TagInput)
    requires input.name == [] || input.color == [] || input.color[0] != '#'
    ensures ParseCreateTag(input).Invalid?
  {
  }
}
