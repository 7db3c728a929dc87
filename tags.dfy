/** The tags: listing them with their post counts, and the admin actions that create,
    rename and delete them while keeping tag slugs unique. */
module Tags {
  import opened Wrappers
  import opened Schema
  import opened Types
  import opened Seqs
  import opened Session
  import opened Zod
  import opened Slug
  import opened TagValidators

  function LinksTo(tagId: string): PostTagRecord -> bool {
    (l: PostTagRecord) => l.tagId == tagId
  }

  function NotLinkTo(tagId: string): PostTagRecord -> bool {
    (l: PostTagRecord) => l.tagId != tagId
  }

  /** A tag row with `count(postTags.tagId)` from the left join. */
  function TagViewOf(links: seq<PostTagRecord>): TagRecord -> TagView {
    (t: TagRecord) => TagView(t.id, t.name, t.slug, Some(t.color), Some(Count(LinksTo(t.id), links) as int))
  }

  /** `getTags`: every tag once, in table order, with the number of links naming it. */
  function GetTags(tags: seq<TagRecord>, links: seq<PostTagRecord>): (r: ActionResult<seq<TagView>>)
    ensures r.Ok? && |r.data| == |tags|
    ensures forall i :: 0 <= i < |tags| ==>
      r.data[i].id == tags[i].id && r.data[i].slug == tags[i].slug && r.data[i].name == tags[i].name
      && r.data[i].color == Some(tags[i].color)
      && r.data[i].postCount == Some(|Filter(LinksTo(tags[i].id), links)|)
  {
    var views := Map(TagViewOf(links), tags);
    forall i | 0 <= i < |tags| ensures views[i].postCount == Some(|Filter(LinksTo(tags[i].id), links)|) {
      CountIsFilter(LinksTo(tags[i].id), links);
    }
    Ok(views)
  }

  /** `count` is the size of the matching rows. */
  lemma {:induction false} CountIsFilter<T>(p: T -> bool, s: seq<T>)
    ensures Count(p, s) == |Filter(p, s)|
  {
    if s != [] {
      CountIsFilter(p, s[1..]);
    }
  }

  function TagSlugIs(slug: string): TagRecord -> bool {
    (t: TagRecord) => t.slug == slug
  }

  /** `getTagBySlug`. */
  function GetTagBySlug(tags: seq<TagRecord>, links: seq<PostTagRecord>, slug: string)
    : (r: ActionResult<TagView>)
    ensures r.Err? <==> forall t :: t in tags ==> t.slug != slug
    ensures r.Err? ==> r.error == "Tag not found"
    ensures r.Ok? ==> r.data.slug == slug
    ensures r.Ok? ==> exists t :: t in tags && t.slug == slug && r.data == TagViewOf(links)(t)
  {
    match First(TagSlugIs(slug), tags)
    case None => Err("Tag not found")
    case Some(t) => Ok(TagViewOf(links)(t))
  }

  /** Tag ids, and tag slugs, are unique (`tags.id` is the key, `tags.slug` is `UNIQUE`). */
  predicate Valid(tags: seq<TagRecord>) {
    (forall i, j :: 0 <= i < j < |tags| ==> tags[i].id != tags[j].id)
    && (forall i, j :: 0 <= i < j < |tags| ==> tags[i].slug != tags[j].slug)
  }

  function SlugTaken(tags: seq<TagRecord>, slug: string): bool {
    First(TagSlugIs(slug), tags).Some?
  }

  /** The message both writes give for a slug another tag holds. */
  function SlugTakenMessage(slug: string): string {
    "A tag with slug \"" + slug + "\" already exists"
  }

  /** Inserting a tag whose id and slug are new keeps the table valid. */
  lemma InsertKeepsValid(tags: seq<TagRecord>, t: TagRecord)
    requires Valid(tags) && !SlugTaken(tags, t.slug)
    requires forall u :: u in tags ==> u.id != t.id
    ensures Valid(tags + [t])
  {
    var r := tags + [t];
    forall i, j | 0 <= i < j < |r| ensures r[i].id != r[j].id && r[i].slug != r[j].slug {
      if j == |tags| {
        assert r[i] in tags;
      }
    }
  }

  /** `UPDATE tags SET name, slug, color WHERE id = tagId`. */
  function RenameTag(tags: seq<TagRecord>, tagId: string, name: string, slug: string, color: string)
    : (r: seq<TagRecord>)
    ensures |r| == |tags|
    ensures forall i :: 0 <= i < |tags| ==>
      r[i] == if tags[i].id == tagId then TagRecord(tagId, name, slug, color) else tags[i]
  {
    if tags == [] then []
    else
      [if tags[0].id == tagId then TagRecord(tagId, name, slug, color) else tags[0]]
        + RenameTag(tags[1..], tagId, name, slug, color)
  }

  /** Renaming keeps the table valid when the new slug is the tag's own or held by no tag:
      exactly the two cases in which `updateTag` writes. */
  lemma RenameKeepsValid(tags: seq<TagRecord>, tagId: string, name: string, slug: string, color: string,
                         current: TagRecord)
    requires Valid(tags) && current in tags && current.id == tagId
    requires current.slug == slug || !SlugTaken(tags, slug)
    ensures Valid(RenameTag(tags, tagId, name, slug, color))
  {
    var r := RenameTag(tags, tagId, name, slug, color);
    forall i, j | 0 <= i < j < |r| ensures r[i].id != r[j].id && r[i].slug != r[j].slug {
      if tags[i].id == tagId && tags[j].id != tagId {
        assert tags[j] in tags;
        if current.slug == slug {
          var k :| 0 <= k < |tags| && tags[k] == current;
        }
      } else if tags[j].id == tagId && tags[i].id != tagId {
        assert tags[i] in tags;
        if current.slug == slug {
          var k :| 0 <= k < |tags| && tags[k] == current;
        }
      }
    }
  }

  /** `createTag`. `id` is the new UUID. */
  method CreateTag(db: Database, session: Option<SessionUser>, name: string, color: string, id: string)
    returns (o: Outcome<ActionResult<TagView>>)
    modifies db`tags
    ensures RequireAdmin(session).Redirect? ==>
      o == Redirected(RequireAdmin(session).path) && db.tags == old(db.tags)
    ensures RequireAdmin(session).Pass? && ParseCreateTag(TagInput(name, color)).Invalid? ==>
      o == Returned(Err(FirstMessage(ParseCreateTag(TagInput(name, color)).issues))) && db.tags == old(db.tags)
    ensures RequireAdmin(session).Pass? && ParseCreateTag(TagInput(name, color)).Valid? ==>
      var d := ParseCreateTag(TagInput(name, color)).data;
      var slug := ToSlug(d.name);
      if SlugTaken(old(db.tags), slug) then
        o == Returned(Err(SlugTakenMessage(slug))) && db.tags == old(db.tags)
      else
        db.tags == old(db.tags) + [TagRecord(id, d.name, slug, d.color)]
        && o == Returned(Ok(TagView(id, d.name, slug, Some(d.color), Some(0))))
    ensures Valid(old(db.tags)) && (forall u :: u in old(db.tags) ==> u.id != id) ==> Valid(db.tags)
  {
    var gate := RequireAdmin(session);
    if gate.Redirect? {
      return Redirected(gate.path);
    }
    var parsed := ParseCreateTag(TagInput(name, color));
    if parsed.Invalid? {
      return Returned(Err(FirstMessage(parsed.issues)));
    }
    var slug := ToSlug(parsed.data.name);
    if SlugTaken(db.tags, slug) {
      return Returned(Err(SlugTakenMessage(slug)));
    }
    var t := TagRecord(id, parsed.data.name, slug, parsed.data.color);
    if Valid(db.tags) && forall u :: u in db.tags ==> u.id != id {
      InsertKeepsValid(db.tags, t);
    }
    db.tags := db.tags + [t];
    o := Returned(Ok(TagView(id, t.name, slug, Some(t.color), Some(0))));
  }

  /** `updateTag`. The slug is checked against the other tags only when it changes. */
  method UpdateTag(db: Database, session: Option<SessionUser>, tagId: string, name: string, color: string)
    returns (o: Outcome<ActionResult<TagView>>)
    modifies db`tags
    ensures RequireAdmin(session).Redirect? ==>
      o == Redirected(RequireAdmin(session).path) && db.tags == old(db.tags)
    ensures RequireAdmin(session).Pass? && ParseUpdateTag(UpdateTagInput(tagId, name, color)).Invalid? ==>
      o == Returned(Err(FirstMessage(ParseUpdateTag(UpdateTagInput(tagId, name, color)).issues)))
      && db.tags == old(db.tags)
    ensures RequireAdmin(session).Pass? && ParseUpdateTag(UpdateTagInput(tagId, name, color)).Valid? ==>
      var d := ParseUpdateTag(UpdateTagInput(tagId, name, color)).data;
      var slug := ToSlug(d.name);
      var current := First(TagWithId(tagId), old(db.tags));
      if current.None? then
        o == Returned(Err("Tag not found")) && db.tags == old(db.tags)
      else if current.value.slug != slug && SlugTaken(old(db.tags), slug) then
        o == Returned(Err(SlugTakenMessage(slug))) && db.tags == old(db.tags)
      else
        db.tags == RenameTag(old(db.tags), tagId, d.name, slug, d.color)
        && o == Returned(Ok(TagView(tagId, d.name, slug, Some(d.color), Some(0))))
    ensures Valid(old(db.tags)) ==> Valid(db.tags)
  {
    var gate := RequireAdmin(session);
    if gate.Redirect? {
      return Redirected(gate.path);
    }
    var parsed := ParseUpdateTag(UpdateTagInput(tagId, name, color));
    if parsed.Invalid? {
      return Returned(Err(FirstMessage(parsed.issues)));
    }
    var newSlug := ToSlug(parsed.data.name);
    var current := First(TagWithId(tagId), db.tags);
    if current.None? {
      return Returned(Err("Tag not found"));
    }
    if current.value.slug != newSlug {
      if SlugTaken(db.tags, newSlug) {
        return Returned(Err(SlugTakenMessage(newSlug)));
      }
    }
    if Valid(db.tags) {
      RenameKeepsValid(db.tags, tagId, parsed.data.name, newSlug, parsed.data.color, current.value);
    }
    db.tags := RenameTag(db.tags, tagId, parsed.data.name, newSlug, parsed.data.color);
    o := Returned(Ok(TagView(tagId, parsed.data.name, newSlug, Some(parsed.data.color), Some(0))));
  }

  function NotTag(tagId: string): TagRecord -> bool {
    (t: TagRecord) => t.id != tagId
  }

  /** `deleteTag`. The tag's links go with it (`ON DELETE CASCADE`). */
  method DeleteTag(db: Database, session: Option<SessionUser>, tagId: string)
    returns (o: Outcome<ActionResult<Unit>>)
    modifies db`tags, db`postTags
    ensures RequireAdmin(session).Redirect? ==>
      o == Redirected(RequireAdmin(session).path)
      && db.tags == old(db.tags) && db.postTags == old(db.postTags)
    ensures RequireAdmin(session).Pass? && tagId == "" ==>
      o == Returned(Err("Tag ID is required"))
      && db.tags == old(db.tags) && db.postTags == old(db.postTags)
    ensures RequireAdmin(session).Pass? && tagId != "" && First(TagWithId(tagId), old(db.tags)).None? ==>
      o == Returned(Err("Tag not found"))
      && db.tags == old(db.tags) && db.postTags == old(db.postTags)
    ensures RequireAdmin(session).Pass? && tagId != "" && First(TagWithId(tagId), old(db.tags)).Some? ==>
      o == Returned(Ok(Unit))
      && db.tags == Filter(NotTag(tagId), old(db.tags))
      && db.postTags == Filter(NotLinkTo(tagId), old(db.postTags))
    ensures Valid(old(db.tags)) ==> Valid(db.tags)
  {
    var gate := RequireAdmin(session);
    if gate.Redirect? {
      return Redirected(gate.path);
    }
    if tagId == "" {
      return Returned(Err("Tag ID is required"));
    }
    if First(TagWithId(tagId), db.tags).None? {
      return Returned(Err("Tag not found"));
    }
    if Valid(db.tags) {
      RemoveKeepsValid(db.tags, NotTag(tagId));
    }
    db.tags := Filter(NotTag(tagId), db.tags);
    db.postTags := Filter(NotLinkTo(tagId), db.postTags);
    o := Returned(Ok(Unit));
  }

  /** Deleting rows keeps the table valid. */
  lemma {:induction false} RemoveKeepsValid(tags: seq<TagRecord>, keep: TagRecord -> bool)
    requires Valid(tags)
    ensures Valid(Filter(keep, tags))
  {
    if tags != [] {
      RemoveKeepsValid(tags[1..], keep);
      var rest := Filter(keep, tags[1..]);
      if keep(tags[0]) {
        var r := [tags[0]] + rest;
        forall j | 0 < j < |r| ensures r[0].id != r[j].id && r[0].slug != r[j].slug {
          assert r[j] in tags[1..];
          var k :| 0 <= k < |tags[1..]| && tags[1..][k] == r[j];
          assert tags[k + 1] == r[j];
        }
      }
    }
  }

  /** After a delete, no link names the deleted tag, and a post keeps all its other links. */
  lemma DeleteCascades(links: seq<PostTagRecord>, tagId: string)
    ensures forall l :: l in Filter(NotLinkTo(tagId), links) ==> l.tagId != tagId
    ensures forall l :: l in links && l.tagId != tagId ==> l in Filter(NotLinkTo(tagId), links)
  {
  }
}
