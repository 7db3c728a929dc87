/** The allowlist that comment HTML is cleaned with: the sanitiser's default schema widened
    for highlighted code, tables, strike-through and task-list check boxes. */
module Sanitize {
  import opened Wrappers

  /** An allowed attribute: any value, or only the listed values. */
  datatype AttrSpec = Any(name: string) | OneOf(name: string, values: seq<string>)

  /** A sanitiser schema. `attributes` maps a tag name (or `*`, every tag) to the
      attributes allowed on it; `rest` stands for every other field of the schema
      (protocols, clobbering, stripped tags, ...), which the comment schema copies. */
  datatype Schema<R> = Schema(attributes: Option<map<string, seq<AttrSpec>>>,
                              tagNames: Option<seq<string>>, rest: R)

  /** `schema.attributes?.[tag] ?? []`. */
  function Allowed<R>(s: Schema<R>, tag: string): seq<AttrSpec> {
    if s.attributes.Some? && tag in s.attributes.value then s.attributes.value[tag] else []
  }

  const EXTRA_TAGS: seq<string> := ["pre", "code", "table", "thead", "tbody", "tr", "th", "td", "del", "input"]
  const OVERRIDDEN: set<string> := {"pre", "span", "code", "*"}

  /** `commentSanitizeSchema`, built from any default schema. */
  function CommentSchema<R>(d: Schema<R>): (c: Schema<R>)
    ensures c.rest == d.rest
    ensures c.attributes.Some? && c.tagNames.Some?
    ensures c.tagNames.value == d.tagNames.GetOr([]) + EXTRA_TAGS
    ensures c.attributes.value.Keys ==
      (if d.attributes.Some? then d.attributes.value.Keys else {}) + OVERRIDDEN
    ensures Allowed(c, "pre") == [Any("className"), Any("style"), Any("tabindex")] + Allowed(d, "pre")
    ensures Allowed(c, "span") == [Any("className"), Any("style")] + Allowed(d, "span")
    ensures Allowed(c, "code") == [Any("className"), Any("style")] + Allowed(d, "code")
    ensures Allowed(c, "*") == [Any("className")]
    ensures forall tag :: tag !in OVERRIDDEN ==> Allowed(c, tag) == Allowed(d, tag)
  {
    var base := if d.attributes.Some? then d.attributes.value else map[];
    var attrs := base["pre" := [Any("className"), Any("style"), Any("tabindex")] + Allowed(d, "pre")]
                     ["span" := [Any("className"), Any("style")] + Allowed(d, "span")]
                     ["code" := [Any("className"), Any("style")] + Allowed(d, "code")]
                     ["*" := [Any("className")]];
    Schema(Some(attrs), Some(d.tagNames.GetOr([]) + EXTRA_TAGS), d.rest)
  }

  /** Every tag the default allows is still allowed, and so are the ten added ones. */
  lemma TagsWiden<R>(d: Schema<R>, tag: string)
    ensures tag in d.tagNames.GetOr([]) ==> tag in CommentSchema(d).tagNames.value
    ensures tag in EXTRA_TAGS ==> tag in CommentSchema(d).tagNames.value
    ensures tag in CommentSchema(d).tagNames.value ==> tag in d.tagNames.GetOr([]) || tag in EXTRA_TAGS
  {
  }

  /** The attributes allowed on `pre`, `span` and `code` only grow: every attribute the
      default allows there is still allowed. The `*` entry is the exception: the default's
      global attributes are dropped, not merged. */
  lemma CodeAttributesWiden<R>(d: Schema<R>, tag: string, a: AttrSpec)
    requires tag in {"pre", "span", "code"}
    requires a in Allowed(d, tag)
    ensures a in Allowed(CommentSchema(d), tag)
  {
  }

  /** A default schema whose `*` entry allows `id` loses it. */
  lemma GlobalEntryReplaced<R>(d: Schema<R>)
    requires Any("id") in Allowed(d, "*")
    ensures Any("id") !in Allowed(CommentSchema(d), "*")
  {
  }
}
