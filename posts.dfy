/** The blog posts: reading one post or a page of posts with the visibility rules, and the
    admin actions that create, update, re-status and delete posts. */
module Posts {
  import opened Wrappers
  import opened Schema
  import opened Types
  import opened Seqs
  import opened Ordering
  import opened Session
  import opened Zod
  import opened Slug
  import opened PostValidators
  import opened Grouping
  import opened Paging

  // ---------------------------------------------------------------------------------------
  // Slugs

  function SlugIs(slug: string): PostRecord -> bool {
    (p: PostRecord) => p.slug == slug
  }

  /** The filter `generateUniqueSlug` applies to the rows holding the base slug, as written:
      keep a row when there is no `excludeId`, or when the row's slug differs from the base. */
  function ConflictAsWritten(excludeId: Option<string>, slug: string): PostRecord -> bool {
    (p: PostRecord) => !Truthy(excludeId) || p.slug != slug
  }

  /** The choice `generateUniqueSlug` makes for the base slug `base`, as written. */
  function ChooseSlugAsWritten(posts: seq<PostRecord>, base: string, excludeId: Option<string>,
                               suffix: string): (slug: string)
    ensures slug == base || slug == base + "-" + suffix
  {
    var existing := Filter(SlugIs(base), posts);
    var conflict := Filter(ConflictAsWritten(excludeId, base), existing);
    if |conflict| > 0 then base + "-" + suffix else base
  }

  /** `generateUniqueSlug` as written. `suffix` stands for the random base-36 digits. */
  function GenerateUniqueSlugAsWritten(posts: seq<PostRecord>, title: string,
                                       excludeId: Option<string>, suffix: string): (slug: string)
    ensures slug == ToSlug(title) || slug == ToSlug(title) + "-" + suffix
  {
    ChooseSlugAsWritten(posts, ToSlug(title), excludeId, suffix)
  }

  /** The row `excludeId` names, which may keep its own slug. */
  predicate Excluded(excludeId: Option<string>, p: PostRecord) {
    Truthy(excludeId) && p.id == excludeId.value
  }

  /** A row other than the excluded one that already holds `slug`. */
  function Holder(slug: string, excludeId: Option<string>): PostRecord -> bool {
    (p: PostRecord) => p.slug == slug && !Excluded(excludeId, p)
  }

  /** The intended choice for the base slug `base`: keep it when no post other than the
      excluded one holds it, otherwise add the suffix. */
  function ChooseSlug(posts: seq<PostRecord>, base: string, excludeId: Option<string>,
                      suffix: string): (slug: string)
    ensures slug == base <==> forall p :: p in posts && p.slug == base ==> Excluded(excludeId, p)
    ensures slug != base ==> slug == base + "-" + suffix
  {
    var holders := Filter(Holder(base, excludeId), posts);
    if holders != [] then
      assert holders[0] in holders;
      assert |base + "-" + suffix| > |base|;
      base + "-" + suffix
    else
      assert forall p :: p in posts && p.slug == base ==> Excluded(excludeId, p) by {
        forall p | p in posts && p.slug == base ensures Excluded(excludeId, p) {
          assert p !in holders;
        }
      }
      base
  }

  /** The unique-slug choice as intended: the title's slug when no post other than the
      excluded one holds it, otherwise that slug with a random suffix. */
  function GenerateUniqueSlug(posts: seq<PostRecord>, title: string,
                              excludeId: Option<string>, suffix: string): (slug: string)
    ensures slug == ToSlug(title) <==>
      forall p :: p in posts && p.slug == ToSlug(title) ==> Excluded(excludeId, p)
    ensures slug != ToSlug(title) ==> slug == ToSlug(title) + "-" + suffix
  {
    ChooseSlug(posts, ToSlug(title), excludeId, suffix)
  }

  /** When no post holds the suffixed slug, the chosen slug is held by no post but the
      excluded one: the generator keeps post slugs unique as long as the random suffix is
      fresh. */
  lemma GeneratedSlugIsFree(posts: seq<PostRecord>, title: string, excludeId: Option<string>, suffix: string)
    requires forall p :: p in posts ==> p.slug != ToSlug(title) + "-" + suffix
    ensures var slug := GenerateUniqueSlug(posts, title, excludeId, suffix);
      forall p :: p in posts && p.slug == slug ==> Excluded(excludeId, p)
  {
  }

  lemma ChooseAgreesWithoutExclusion(posts: seq<PostRecord>, base: string,
                                     excludeId: Option<string>, suffix: string)
    requires !Truthy(excludeId)
    ensures ChooseSlugAsWritten(posts, base, excludeId, suffix) == ChooseSlug(posts, base, excludeId, suffix)
  {
    var existing := Filter(SlugIs(base), posts);
    FilterAll(ConflictAsWritten(excludeId, base), existing);
    assert forall p :: p in posts ==> SlugIs(base)(p) == Holder(base, excludeId)(p);
    FilterSame(SlugIs(base), Holder(base, excludeId), posts);
  }

  /** Without an `excludeId`, as in `createPost`, the code as written picks the intended slug. */
  lemma UniqueSlugAgreesWithoutExclusion(posts: seq<PostRecord>, title: string,
                                         excludeId: Option<string>, suffix: string)
    requires !Truthy(excludeId)
    ensures GenerateUniqueSlugAsWritten(posts, title, excludeId, suffix)
      == GenerateUniqueSlug(posts, title, excludeId, suffix)
  {
    ChooseAgreesWithoutExclusion(posts, ToSlug(title), excludeId, suffix);
  }

  lemma ChooseExclusionFinding(posts: seq<PostRecord>, base: string, excludeId: Option<string>,
                               suffix: string, other: PostRecord)
    requires Truthy(excludeId)
    requires other in posts && other.slug == base && other.id != excludeId.value
    ensures ChooseSlugAsWritten(posts, base, excludeId, suffix) == base
    ensures ChooseSlug(posts, base, excludeId, suffix) == base + "-" + suffix
  {
    var existing := Filter(SlugIs(base), posts);
    assert forall p :: p in existing ==> !ConflictAsWritten(excludeId, base)(p);
    FilterNone(ConflictAsWritten(excludeId, base), existing);
  }

  /** With an `excludeId`, the code as written keeps the base slug even when another post
      holds it: every row it fetched has the base slug, so its filter drops them all. */
  lemma UniqueSlugExclusionFinding(posts: seq<PostRecord>, title: string, excludeId: Option<string>,
                                   suffix: string, other: PostRecord)
    requires Truthy(excludeId)
    requires other in posts && other.slug == ToSlug(title) && other.id != excludeId.value
    ensures GenerateUniqueSlugAsWritten(posts, title, excludeId, suffix) == other.slug
    ensures GenerateUniqueSlug(posts, title, excludeId, suffix) == other.slug + "-" + suffix
  {
    ChooseExclusionFinding(posts, ToSlug(title), excludeId, suffix, other);
  }

  /** Other posts holding `slug`: the conflict select of `updatePost`. */
  function OtherWithSlug(slug: string, postId: string): PostRecord -> bool {
    (p: PostRecord) => p.slug == slug && p.id != postId
  }

  /** The slug `updatePost` stores: the current one unless a non-empty title slugs to
      something else, which then gets a suffix when another post holds it. */
  function NextSlug(posts: seq<PostRecord>, current: PostRecord, postId: string,
                    title: Option<string>, suffix: string): (slug: string)
    ensures !Truthy(title) || ToSlug(title.value) == current.slug ==> slug == current.slug
    ensures Truthy(title) && ToSlug(title.value) != current.slug ==>
      slug == ToSlug(title.value) || slug == ToSlug(title.value) + "-" + suffix
  {
    if Truthy(title) && ToSlug(title.value) != current.slug then
      var base := ToSlug(title.value);
      if Filter(OtherWithSlug(base, postId), posts) != [] then base + "-" + suffix else base
    else current.slug
  }

  /** The inline slug rule of `updatePost` is the intended unique-slug choice with the
      post itself excluded. */
  lemma NextSlugIsUniqueSlug(posts: seq<PostRecord>, current: PostRecord, postId: string,
                             title: string, suffix: string)
    requires postId != "" && title != "" && ToSlug(title) != current.slug
    ensures NextSlug(posts, current, postId, Some(title), suffix)
      == GenerateUniqueSlug(posts, title, Some(postId), suffix)
  {
    var base := ToSlug(title);
    assert forall p :: p in posts ==> OtherWithSlug(base, postId)(p) == Holder(base, Some(postId))(p);
    FilterSame(OtherWithSlug(base, postId), Holder(base, Some(postId)), posts);
  }

  // ---------------------------------------------------------------------------------------
  // publishedAt

  /** The `publishedAt` rule of `updatePost` and `changePostStatus`: set to `now` when the
      post becomes published for the first time, otherwise kept. */
  function NextPublishedAt(current: Option<int>, status: Option<Status>, now: int): (r: Option<int>)
    ensures current.Some? ==> r == current
    ensures current.None? ==> (r.Some? <==> status == Some(Published))
    ensures r.Some? && current.None? ==> r.value == now
  {
    if status == Some(Published) && current.None? then Some(now) else current
  }

  /** The rule of `createPost`: published from the start iff created published. */
  function InitialPublishedAt(status: Status, now: int): (r: Option<int>)
    ensures r == NextPublishedAt(None, Some(status), now)
  {
    if status == Published then Some(now) else None
  }

  /** Once set, `publishedAt` survives any sequence of status changes. */
  lemma {:induction false} PublishedAtNeverCleared(first: Option<int>, statuses: seq<Status>,
                                                   times: seq<int>)
    requires |times| == |statuses|
    ensures first.Some? ==> PublishedAfter(first, statuses, times) == first
    ensures (exists i :: 0 <= i < |statuses| && statuses[i] == Published)
      ==> PublishedAfter(first, statuses, times).Some?
    decreases |statuses|
  {
    if statuses != [] {
      PublishedAtNeverCleared(NextPublishedAt(first, Some(statuses[0]), times[0]),
                              statuses[1..], times[1..]);
      if exists i :: 0 <= i < |statuses| && statuses[i] == Published {
        var i :| 0 <= i < |statuses| && statuses[i] == Published;
        if i > 0 {
          assert statuses[1..][i - 1] == Published;
        }
      }
    }
  }

  /** `publishedAt` after `changePostStatus(statuses[0])` at `times[0]`, then the next, ... */
  function PublishedAfter(first: Option<int>, statuses: seq<Status>, times: seq<int>): Option<int>
    requires |times| == |statuses|
    decreases |statuses|
  {
    if statuses == [] then first
    else PublishedAfter(NextPublishedAt(first, Some(statuses[0]), times[0]), statuses[1..], times[1..])
  }

  // ---------------------------------------------------------------------------------------
  // Reading

  /** One row of the post select: the post, its author left-joined from users, and the
      number of its visible comments. */
  datatype PostRow = PostRow(post: PostRecord, author: Option<UserRecord>, commentCount: nat)

  function VisibleOn(postId: string): CommentRecord -> bool {
    (c: CommentRecord) => c.postId == postId && !c.hidden
  }

  /** The select with its two left joins and `count(comments.id)`. */
  function SelectPostRow(users: seq<UserRecord>, comments: seq<CommentRecord>, p: PostRecord): PostRow {
    PostRow(p, if p.authorId.Some? then First(UserWithId(p.authorId.value), users) else None,
      Count(VisibleOn(p.id), comments))
  }

  /** `rowToPostView`: the post's own columns, and an author block in which every column
      the join left null takes its fallback. */
  function RowToPostView(row: PostRow, tags: seq<TagView>): (v: PostView)
    ensures v.id == row.post.id && v.title == row.post.title && v.slug == row.post.slug
    ensures v.content == row.post.content && v.renderedContent == row.post.renderedContent
    ensures v.excerpt == row.post.excerpt && v.coverImageUrl == row.post.coverImageUrl
    ensures v.status == row.post.status && v.createdAt == row.post.createdAt
    ensures v.updatedAt == row.post.updatedAt && v.publishedAt == row.post.publishedAt
    ensures v.tags == tags && v.commentCount == row.commentCount
    ensures v.author.id == row.post.authorId.GetOr("")
    ensures row.author.None? ==> v.author == UserView(row.post.authorId.GetOr(""), None, "", None, User, 0)
    ensures row.author.Some? ==>
      var u := row.author.value;
      v.author == UserView(row.post.authorId.GetOr(""), u.name, u.email, u.image, u.role, u.createdAt)
  {
    var author := JoinedAuthor(row.post.authorId, row.author);
    PostView(row.post.id, row.post.title, row.post.slug, row.post.content,
      row.post.renderedContent, row.post.excerpt, row.post.coverImageUrl, author,
      row.post.status, tags, row.commentCount, row.post.createdAt, row.post.updatedAt,
      row.post.publishedAt)
  }

  /** One row of the tag select: a `postTags` link joined with its tag. */
  datatype TagJoinRow = TagJoinRow(postId: string, tag: TagRecord)

  function JoinedTo(postId: string): TagRecord -> TagJoinRow {
    (t: TagRecord) => TagJoinRow(postId, t)
  }

  /** The inner join of `postTags` with `tags` on the tag id, in link order. */
  function Joined(links: seq<PostTagRecord>, tags: seq<TagRecord>): (j: seq<TagJoinRow>)
    ensures forall r :: r in j ==> r.tag in tags && PostTagRecord(r.postId, r.tag.id) in links
    decreases |links|
  {
    if links == [] then []
    else
      var rest := Joined(links[1..], tags);
      var here := Map(JoinedTo(links[0].postId), Filter(TagWithId(links[0].tagId), tags));
      assert forall r :: r in here ==> r.tag in tags && r.postId == links[0].postId && r.tag.id == links[0].tagId by {
        forall r | r in here ensures r.tag in tags && r.postId == links[0].postId && r.tag.id == links[0].tagId {
          var k :| 0 <= k < |here| && here[k] == r;
        }
      }
      assert forall r :: r in rest ==> PostTagRecord(r.postId, r.tag.id) in links by {
        forall r | r in rest ensures PostTagRecord(r.postId, r.tag.id) in links {
          assert PostTagRecord(r.postId, r.tag.id) in links[1..];
        }
      }
      here + rest
  }

  function JoinKey(r: TagJoinRow): Option<string> { Some(r.postId) }

  /** The tag as `fetchTagsForPosts` pushes it: no post count. */
  function JoinTagView(r: TagJoinRow): TagView {
    TagView(r.tag.id, r.tag.name, r.tag.slug, Some(r.tag.color), None)
  }

  function InPosts(postIds: seq<string>): TagJoinRow -> bool {
    (r: TagJoinRow) => r.postId in postIds
  }

  /** `inArray(postTags.postId, postIds)`. */
  function TagJoin(links: seq<PostTagRecord>, tags: seq<TagRecord>, postIds: seq<string>): seq<TagJoinRow> {
    Filter(InPosts(postIds), Joined(links, tags))
  }

  /** The tags of one post: the tags its links name, in link order. */
  function TagsOf(links: seq<PostTagRecord>, tags: seq<TagRecord>, postId: string): seq<TagView> {
    Group(Joined(links, tags), JoinKey, JoinTagView, postId)
  }

  /** Restricting the join to a set of posts leaves the tags of each of those posts alone. */
  lemma TagsOfRestricted(links: seq<PostTagRecord>, tags: seq<TagRecord>, postIds: seq<string>, postId: string)
    requires postId in postIds
    ensures Group(TagJoin(links, tags, postIds), JoinKey, JoinTagView, postId) == TagsOf(links, tags, postId)
  {
    forall r | r in Joined(links, tags) && HasKey(JoinKey, postId)(r) ensures InPosts(postIds)(r) {
      assert JoinKey(r) == Some(postId);
    }
    FilterNarrower(InPosts(postIds), HasKey(JoinKey, postId), Joined(links, tags));
  }

  /** The loop of `fetchTagsForPosts`: for each join row, create its post's list on first
      use and append the tag. */
  method GroupTags(rows: seq<TagJoinRow>) returns (m: map<string, seq<TagView>>)
    ensures m == GroupBy(rows, JoinKey, JoinTagView)
  {
    m := map[];
    var i := 0;
    while i < |rows|
      invariant 0 <= i <= |rows|
      invariant m == GroupBy(rows[..i], JoinKey, JoinTagView)
    {
      var row := rows[i];
      GroupByStep(rows, JoinKey, JoinTagView, i);
      if row.postId !in m {
        m := m[row.postId := []];
      }
      m := m[row.postId := m[row.postId] + [JoinTagView(row)]];
      i := i + 1;
    }
    assert rows[..i] == rows;
  }

  /** `fetchTagsForPosts`: the tags of the given posts, grouped by post. */
  method FetchTagsForPosts(db: Database, postIds: seq<string>) returns (m: map<string, seq<TagView>>)
    ensures postIds == [] ==> m == map[]
    ensures postIds != [] ==> m == GroupBy(TagJoin(db.postTags, db.tags, postIds), JoinKey, JoinTagView)
    ensures forall id :: id in postIds ==> Lookup(m, id) == TagsOf(db.postTags, db.tags, id)
  {
    if |postIds| == 0 {
      return map[];
    }
    var rows := TagJoin(db.postTags, db.tags, postIds);
    m := GroupTags(rows);
    forall id | id in postIds ensures Lookup(m, id) == TagsOf(db.postTags, db.tags, id) {
      LookupIsGroup(rows, JoinKey, JoinTagView, id);
      TagsOfRestricted(db.postTags, db.tags, postIds, id);
    }
  }

  /** The view of a post, with the tables' current contents. */
  function PostViewOf(users: seq<UserRecord>, comments: seq<CommentRecord>, links: seq<PostTagRecord>,
                      tags: seq<TagRecord>, p: PostRecord): PostView {
    RowToPostView(SelectPostRow(users, comments, p), TagsOf(links, tags, p.id))
  }

  /** `getPostById`. */
  method GetPostById(db: Database, postId: string) returns (r: ActionResult<PostView>)
    ensures First(PostWithId(postId), db.posts).None? <==> r == Err("Post not found")
    ensures First(PostWithId(postId), db.posts).Some? ==>
      r == Ok(PostViewOf(db.users, db.comments, db.postTags, db.tags,
                         First(PostWithId(postId), db.posts).value))
  {
    var found := First(PostWithId(postId), db.posts);
    if found.None? {
      return Err("Post not found");
    }
    var row := SelectPostRow(db.users, db.comments, found.value);
    var tagsMap := FetchTagsForPosts(db, [row.post.id]);
    r := Ok(RowToPostView(row, Lookup(tagsMap, row.post.id)));
  }

  /** `getPost`. A post that is not published is reported missing to anyone but an admin. */
  method GetPost(db: Database, session: Option<SessionUser>, slug: string) returns (r: ActionResult<PostView>)
    ensures First(SlugIs(slug), db.posts).None? ==> r == Err("Post not found")
    ensures First(SlugIs(slug), db.posts).Some? ==>
      var p := First(SlugIs(slug), db.posts).value;
      r == if !IsAdmin(session) && p.status != Published then Err("Post not found")
           else Ok(PostViewOf(db.users, db.comments, db.postTags, db.tags, p))
    ensures r.Ok? ==> r.data.slug == slug && (IsAdmin(session) || r.data.status == Published)
  {
    var isAdmin := IsAdmin(session);
    var found := First(SlugIs(slug), db.posts);
    if found.None? {
      return Err("Post not found");
    }
    var row := SelectPostRow(db.users, db.comments, found.value);
    if !isAdmin && row.post.status != Published {
      return Err("Post not found");
    }
    var tagsMap := FetchTagsForPosts(db, [row.post.id]);
    r := Ok(RowToPostView(row, Lookup(tagsMap, row.post.id)));
  }

  // ---------------------------------------------------------------------------------------
  // Pages of posts

  /** The filters of `getPosts`; each may be left out. */
  datatype PostFilters = PostFilters(
    tag: Option<string>, status: Option<Status>, page: Option<int>, pageSize: Option<int>,
    sort: Option<Sort>)

  /** The page size `getPosts` uses when none is asked for. */
  const POSTS_PAGE_SIZE: nat := 10

  /** The ids of the posts linked to the tag with slug `tag`, when the tag filter is set. */
  function TaggedIds(links: seq<PostTagRecord>, tags: seq<TagRecord>, tag: Option<string>): Option<seq<string>> {
    if Truthy(tag) then Some(Map(RowPostId, Filter(TagSlugIs(tag.value), Joined(links, tags)))) else None
  }

  function RowPostId(r: TagJoinRow): string { r.postId }

  function TagSlugIs(slug: string): TagJoinRow -> bool {
    (r: TagJoinRow) => r.tag.slug == slug
  }

  /** The `WHERE` of `getPosts`: a non-admin sees published posts only, whatever status was
      asked for; an admin sees the asked status, or every post. */
  function Listed(isAdmin: bool, status: Option<Status>, tagged: Option<seq<string>>): PostRecord -> bool {
    (p: PostRecord) =>
      (if !isAdmin then p.status == Published else status.None? || p.status == status.value)
      && (tagged.Some? ==> p.id in tagged.value)
  }

  function Created(p: PostRecord): int { p.createdAt }
  function CreatedDesc(p: PostRecord): int { -p.createdAt }

  function SortKey(sort: Option<Sort>): PostRecord -> int {
    if sort == Some(Oldest) then Created else CreatedDesc
  }

  function ViewsFor(users: seq<UserRecord>, comments: seq<CommentRecord>, links: seq<PostTagRecord>,
                    tags: seq<TagRecord>): PostRecord -> PostView {
    (p: PostRecord) => PostViewOf(users, comments, links, tags, p)
  }

  /** The posts `getPosts` counts: those passing its `WHERE`, in table order. */
  function Selected(posts: seq<PostRecord>, isAdmin: bool, status: Option<Status>,
                    tagged: Option<seq<string>>): (r: seq<PostRecord>)
    ensures forall p :: p in r <==> p in posts && Listed(isAdmin, status, tagged)(p)
  {
    Filter(Listed(isAdmin, status, tagged), posts)
  }

  /** The page `getPosts` answers: the listed posts in the asked order, the window of the
      asked page, and the counts. A tag that no post carries gives the empty page at once. */
  function PageOf(users: seq<UserRecord>, posts: seq<PostRecord>, comments: seq<CommentRecord>,
                  links: seq<PostTagRecord>, tags: seq<TagRecord>, isAdmin: bool, filters: PostFilters)
    : PaginatedResult<PostView>
  {
    var page := ClampPage(filters.page);
    var size := ClampPageSize(filters.pageSize, POSTS_PAGE_SIZE);
    var tagged := TaggedIds(links, tags, filters.tag);
    if tagged.Some? && tagged.value == [] then PaginatedResult([], 0, page, size, 0)
    else
      var selected := Selected(posts, isAdmin, filters.status, tagged);
      var window := Window(SortBy(selected, SortKey(filters.sort)), page, size);
      PaginatedResult(Map(ViewsFor(users, comments, links, tags), window), |selected|, page, size,
        CeilDiv(|selected|, size))
  }

  /** The item built from a fetched row and the fetched tag map. */
  function ItemView(users: seq<UserRecord>, comments: seq<CommentRecord>,
                    tagsMap: map<string, seq<TagView>>): PostRecord -> PostView {
    (p: PostRecord) => RowToPostView(SelectPostRow(users, comments, p), Lookup(tagsMap, p.id))
  }

  function PostId(p: PostRecord): string { p.id }

  /** The items of the page: each row's view, with the tags the fetched map holds for it. */
  lemma ItemsAreViews(db: Database, rows: seq<PostRecord>, tagsMap: map<string, seq<TagView>>)
    requires forall id :: id in Map(PostId, rows) ==> Lookup(tagsMap, id) == TagsOf(db.postTags, db.tags, id)
    ensures Map(ItemView(db.users, db.comments, tagsMap), rows)
      == Map(ViewsFor(db.users, db.comments, db.postTags, db.tags), rows)
  {
    var ids := Map(PostId, rows);
    forall i | 0 <= i < |rows|
      ensures ItemView(db.users, db.comments, tagsMap)(rows[i])
        == ViewsFor(db.users, db.comments, db.postTags, db.tags)(rows[i])
    {
      assert ids[i] == rows[i].id;
      assert ids[i] in ids;
    }
  }

  /** `getPosts`. */
  method GetPosts(db: Database, session: Option<SessionUser>, filters: PostFilters)
    returns (r: ActionResult<PaginatedResult<PostView>>)
    ensures r == Ok(PageOf(db.users, db.posts, db.comments, db.postTags, db.tags, IsAdmin(session), filters))
  {
    var isAdmin := IsAdmin(session);
    var page := ClampPage(filters.page);
    var pageSize := ClampPageSize(filters.pageSize, POSTS_PAGE_SIZE);
    var tagged := TaggedIds(db.postTags, db.tags, filters.tag);
    if tagged.Some? && tagged.value == [] {
      return Ok(PaginatedResult([], 0, page, pageSize, 0));
    }
    var selected := Selected(db.posts, isAdmin, filters.status, tagged);
    var total := |selected|;
    var totalPages := CeilDiv(total, pageSize);
    var rows := Window(SortBy(selected, SortKey(filters.sort)), page, pageSize);
    var tagsMap := FetchTagsForPosts(db, Map(PostId, rows));
    ItemsAreViews(db, rows, tagsMap);
    var items := Map(ItemView(db.users, db.comments, tagsMap), rows);
    r := Ok(PaginatedResult(items, total, page, pageSize, totalPages));
  }

  /** The posts of a page are listed posts, and the items are their views. */
  lemma WindowIsListed(posts: seq<PostRecord>, isAdmin: bool, filters: PostFilters,
                       tagged: Option<seq<string>>, p: PostRecord)
    requires p in Window(SortBy(Selected(posts, isAdmin, filters.status, tagged), SortKey(filters.sort)),
                         ClampPage(filters.page), ClampPageSize(filters.pageSize, POSTS_PAGE_SIZE))
    ensures p in posts && Listed(isAdmin, filters.status, tagged)(p)
  {
    var selected := Selected(posts, isAdmin, filters.status, tagged);
    var sorted := SortBy(selected, SortKey(filters.sort));
    var w := Window(sorted, ClampPage(filters.page), ClampPageSize(filters.pageSize, POSTS_PAGE_SIZE));
    var i :| 0 <= i < |w| && w[i] == p;
    assert p in sorted;
    MemberOfSorted(selected, SortKey(filters.sort), p);
  }

  /** Every item of a page is the view of a post that passes the visibility rule and the
      tag filter. */
  lemma PageIsVisible(users: seq<UserRecord>, posts: seq<PostRecord>, comments: seq<CommentRecord>,
                      links: seq<PostTagRecord>, tags: seq<TagRecord>, isAdmin: bool, filters: PostFilters)
    ensures forall v :: v in PageOf(users, posts, comments, links, tags, isAdmin, filters).items ==>
      (!isAdmin ==> v.status == Published)
      && (isAdmin && filters.status.Some? ==> v.status == filters.status.value)
      && (Truthy(filters.tag) ==> v.id in TaggedIds(links, tags, filters.tag).value)
      && exists p :: p in posts && v == PostViewOf(users, comments, links, tags, p)
  {
    var tagged := TaggedIds(links, tags, filters.tag);
    if !(tagged.Some? && tagged.value == []) {
      var w := Window(SortBy(Selected(posts, isAdmin, filters.status, tagged), SortKey(filters.sort)),
                      ClampPage(filters.page), ClampPageSize(filters.pageSize, POSTS_PAGE_SIZE));
      var items := PageOf(users, posts, comments, links, tags, isAdmin, filters).items;
      assert items == Map(ViewsFor(users, comments, links, tags), w);
      forall v | v in items
        ensures (!isAdmin ==> v.status == Published)
          && (isAdmin && filters.status.Some? ==> v.status == filters.status.value)
          && (Truthy(filters.tag) ==> v.id in tagged.value)
          && exists p :: p in posts && v == PostViewOf(users, comments, links, tags, p)
      {
        var i :| 0 <= i < |items| && items[i] == v;
        assert w[i] in w;
        WindowIsListed(posts, isAdmin, filters, tagged, w[i]);
        assert v == PostViewOf(users, comments, links, tags, w[i]);
      }
    }
  }

  /** The page sizes and counts: the clamps, the window length and the page count. */
  lemma PageCounts(users: seq<UserRecord>, posts: seq<PostRecord>, comments: seq<CommentRecord>,
                   links: seq<PostTagRecord>, tags: seq<TagRecord>, isAdmin: bool, filters: PostFilters)
    ensures var r := PageOf(users, posts, comments, links, tags, isAdmin, filters);
      r.page == ClampPage(filters.page) && r.pageSize == ClampPageSize(filters.pageSize, POSTS_PAGE_SIZE)
      && |r.items| <= r.pageSize && r.total <= |posts|
      && r.totalPages * r.pageSize >= r.total
      && (r.totalPages > 0 ==> (r.totalPages - 1) * r.pageSize < r.total)
      && (|r.items| > 0 ==> Offset(r.page, r.pageSize) < r.total)
  {
    var page := ClampPage(filters.page);
    var size := ClampPageSize(filters.pageSize, POSTS_PAGE_SIZE);
    var tagged := TaggedIds(links, tags, filters.tag);
    if !(tagged.Some? && tagged.value == []) {
      var selected := Selected(posts, isAdmin, filters.status, tagged);
      var sorted := SortBy(selected, SortKey(filters.sort));
      var w := Window(sorted, page, size);
      var r := PageOf(users, posts, comments, links, tags, isAdmin, filters);
      assert r == PaginatedResult(Map(ViewsFor(users, comments, links, tags), w), |selected|, page, size,
        CeilDiv(|selected|, size));
      assert |sorted| == |selected| <= |posts|;
    }
  }

  /** The items of a page come in the asked order: newest first unless `oldest` was asked. */
  lemma PageIsOrdered(users: seq<UserRecord>, posts: seq<PostRecord>, comments: seq<CommentRecord>,
                      links: seq<PostTagRecord>, tags: seq<TagRecord>, isAdmin: bool, filters: PostFilters)
    ensures var items := PageOf(users, posts, comments, links, tags, isAdmin, filters).items;
      forall i, j :: 0 <= i < j < |items| ==>
        if filters.sort == Some(Oldest) then items[i].createdAt <= items[j].createdAt
        else items[i].createdAt >= items[j].createdAt
  {
    var tagged := TaggedIds(links, tags, filters.tag);
    if !(tagged.Some? && tagged.value == []) {
      var key := SortKey(filters.sort);
      var sorted := SortBy(Selected(posts, isAdmin, filters.status, tagged), key);
      var w := Window(sorted, ClampPage(filters.page), ClampPageSize(filters.pageSize, POSTS_PAGE_SIZE));
      WindowSorted(sorted, key, ClampPage(filters.page), ClampPageSize(filters.pageSize, POSTS_PAGE_SIZE));
      var items := PageOf(users, posts, comments, links, tags, isAdmin, filters).items;
      assert items == Map(ViewsFor(users, comments, links, tags), w);
      forall i, j | 0 <= i < j < |items|
        ensures if filters.sort == Some(Oldest) then items[i].createdAt <= items[j].createdAt
                else items[i].createdAt >= items[j].createdAt
      {
        assert key(w[i]) <= key(w[j]);
        assert items[i].createdAt == w[i].createdAt && items[j].createdAt == w[j].createdAt;
      }
    }
  }

  /** A non-admin's page does not depend on the status filter. */
  lemma NonAdminIgnoresStatus(users: seq<UserRecord>, posts: seq<PostRecord>, comments: seq<CommentRecord>,
                              links: seq<PostTagRecord>, tags: seq<TagRecord>, filters: PostFilters,
                              status: Option<Status>)
    ensures PageOf(users, posts, comments, links, tags, false, filters)
      == PageOf(users, posts, comments, links, tags, false, filters.(status := status))
  {
    var tagged := TaggedIds(links, tags, filters.tag);
    FilterSame(Listed(false, filters.status, tagged), Listed(false, status, tagged), posts);
  }

  /** An admin with no status and no tag filter counts every post. */
  lemma AdminSeesAll(users: seq<UserRecord>, posts: seq<PostRecord>, comments: seq<CommentRecord>,
                     links: seq<PostTagRecord>, tags: seq<TagRecord>, filters: PostFilters)
    requires filters.status.None? && !Truthy(filters.tag)
    ensures PageOf(users, posts, comments, links, tags, true, filters).total == |posts|
  {
    FilterAll(Listed(true, None, None), posts);
  }

  // ---------------------------------------------------------------------------------------
  // Writing

  /** An assignment to a nullable column: left out keeps the value, `null` clears it. */
  function Assign<T>(f: Field<T>, current: Option<T>): (r: Option<T>)
    ensures f.Absent? ==> r == current
    ensures !f.Absent? ==> r == f.OrNull()
  {
    if f.Absent? then current else f.OrNull()
  }

  /** The `SET` list of an `UPDATE posts`: a field left out is not written. */
  datatype PostChange = PostChange(
    title: Option<string>, content: Option<string>, renderedContent: Option<string>,
    excerpt: Field<string>, coverImageUrl: Field<string>, status: Option<Status>,
    slug: Option<string>, publishedAt: Field<int>, updatedAt: int)

  function ApplyChange(p: PostRecord, c: PostChange): (q: PostRecord)
    ensures q.id == p.id && q.authorId == p.authorId && q.createdAt == p.createdAt
    ensures q.updatedAt == c.updatedAt
  {
    p.(title := c.title.GetOr(p.title), content := c.content.GetOr(p.content),
       renderedContent := c.renderedContent.GetOr(p.renderedContent),
       excerpt := Assign(c.excerpt, p.excerpt), coverImageUrl := Assign(c.coverImageUrl, p.coverImageUrl),
       status := c.status.GetOr(p.status), slug := c.slug.GetOr(p.slug),
       publishedAt := Assign(c.publishedAt, p.publishedAt), updatedAt := c.updatedAt)
  }

  /** `UPDATE posts SET ... WHERE id = postId`. */
  function UpdatePosts(rows: seq<PostRecord>, postId: string, c: PostChange): (r: seq<PostRecord>)
    ensures |r| == |rows|
    ensures forall i :: 0 <= i < |rows| ==>
      r[i] == if rows[i].id == postId then ApplyChange(rows[i], c) else rows[i]
  {
    if rows == [] then []
    else
      [if rows[0].id == postId then ApplyChange(rows[0], c) else rows[0]] + UpdatePosts(rows[1..], postId, c)
  }

  /** After the update, the post found by its id is the updated first match. */
  lemma {:induction false} FindUpdated(rows: seq<PostRecord>, postId: string, c: PostChange)
    requires First(PostWithId(postId), rows).Some?
    ensures First(PostWithId(postId), UpdatePosts(rows, postId, c))
      == Some(ApplyChange(First(PostWithId(postId), rows).value, c))
  {
    if rows[0].id != postId {
      assert UpdatePosts(rows, postId, c)[1..] == UpdatePosts(rows[1..], postId, c);
      FindUpdated(rows[1..], postId, c);
    }
  }

  /** The field-wise rules of `updatePost`: given fields are written, the others are kept. */
  function UpdateChange(posts: seq<PostRecord>, current: PostRecord, postId: string,
                        d: UpdatePostInput, render: string -> string, suffix: string, now: int)
    : (c: PostChange)
    ensures var q := ApplyChange(current, c);
      q.title == d.title.GetOr(current.title)
      && (d.content.Some? ==> q.content == d.content.value && q.renderedContent == render(d.content.value))
      && (d.content.None? ==> q.content == current.content && q.renderedContent == current.renderedContent)
      && q.excerpt == Assign(d.excerpt, current.excerpt)
      && q.coverImageUrl == Assign(d.coverImageUrl, current.coverImageUrl)
      && q.status == d.status.GetOr(current.status)
      && q.slug == NextSlug(posts, current, postId, d.title, suffix)
      && q.publishedAt == NextPublishedAt(current.publishedAt, d.status, now)
      && q.updatedAt == now
  {
    var published := NextPublishedAt(current.publishedAt, d.status, now);
    PostChange(d.title, d.content, if d.content.Some? then Some(render(d.content.value)) else None,
      d.excerpt, d.coverImageUrl, d.status, Some(NextSlug(posts, current, postId, d.title, suffix)),
      if published != current.publishedAt then (if published.Some? then Present(published.value) else Null)
      else Absent,
      now)
  }

  /** The links a post gets from `tagIds`. */
  function LinkTo(postId: string): string -> PostTagRecord {
    (tagId: string) => PostTagRecord(postId, tagId)
  }

  function LinkOf(postId: string): PostTagRecord -> bool {
    (l: PostTagRecord) => l.postId == postId
  }

  function LinkNotOf(postId: string): PostTagRecord -> bool {
    (l: PostTagRecord) => l.postId != postId
  }

  /** The tag replacement of `updatePost`: when `tagIds` is given, the post's links are
      deleted and the new ones inserted. */
  function ReplaceTags(links: seq<PostTagRecord>, postId: string, tagIds: Option<seq<string>>)
    : seq<PostTagRecord>
  {
    if tagIds.None? then links else Filter(LinkNotOf(postId), links) + Map(LinkTo(postId), tagIds.value)
  }

  /** Replacing the tags gives the post exactly the given links and leaves every other
      post's links as they were. */
  lemma ReplaceTagsExactly(links: seq<PostTagRecord>, postId: string, tagIds: seq<string>, other: string)
    requires other != postId
    ensures Filter(LinkOf(postId), ReplaceTags(links, postId, Some(tagIds))) == Map(LinkTo(postId), tagIds)
    ensures Filter(LinkOf(other), ReplaceTags(links, postId, Some(tagIds))) == Filter(LinkOf(other), links)
  {
    var kept := Filter(LinkNotOf(postId), links);
    var added := Map(LinkTo(postId), tagIds);
    FilterConcat(LinkOf(postId), kept, added);
    FilterConcat(LinkOf(other), kept, added);
    FilterNone(LinkOf(postId), kept);
    FilterAll(LinkOf(postId), added);
    FilterNone(LinkOf(other), added);
    FilterNarrower(LinkNotOf(postId), LinkOf(other), links);
  }

  /** The row `createPost` inserts. */
  function NewPost(id: string, d: CreatePostData, render: string -> string, slug: string,
                   authorId: string, now: int): (p: PostRecord)
    ensures p.id == id && p.slug == slug && p.authorId == Some(authorId) && p.status == d.status
    ensures p.title == d.title && p.content == d.content && p.renderedContent == render(d.content)
    ensures p.excerpt == d.excerpt.OrNull() && p.coverImageUrl == d.coverImageUrl.OrNull()
    ensures p.createdAt == now && p.updatedAt == now
    ensures p.publishedAt == InitialPublishedAt(d.status, now)
  {
    PostRecord(id, d.title, slug, d.content, render(d.content), d.excerpt.OrNull(),
      d.coverImageUrl.OrNull(), Some(authorId), d.status, now, now,
      if d.status == Published then Some(now) else None)
  }

  /** `createPost`. `render` is the Markdown renderer, `id` the new UUID, `suffix` the
      random slug suffix and `now` the clock. */
  method CreatePost(db: Database, session: Option<SessionUser>, input: CreatePostInput,
                    isUrl: string -> bool, render: string -> string, id: string, suffix: string, now: int)
    returns (o: Outcome<ActionResult<PostView>>)
    modifies db`posts, db`postTags
    ensures RequireAdmin(session).Redirect? ==>
      o == Redirected(RequireAdmin(session).path)
      && db.posts == old(db.posts) && db.postTags == old(db.postTags)
    ensures RequireAdmin(session).Pass? && ParseCreatePost(input, isUrl).Invalid? ==>
      o == Returned(Err(FirstMessage(ParseCreatePost(input, isUrl).issues)))
      && db.posts == old(db.posts) && db.postTags == old(db.postTags)
    ensures RequireAdmin(session).Pass? && ParseCreatePost(input, isUrl).Valid? ==>
      var d := ParseCreatePost(input, isUrl).data;
      var p := NewPost(id, d, render, GenerateUniqueSlug(old(db.posts), d.title, None, suffix),
                       session.value.id, now);
      db.posts == old(db.posts) + [p]
      && db.postTags == old(db.postTags) + Map(LinkTo(id), d.tagIds)
      && ((forall q :: q in old(db.posts) ==> q.id != id) ==>
            o == Returned(Ok(PostViewOf(db.users, db.comments, db.postTags, db.tags, p))))
  {
    var gate := RequireAdmin(session);
    if gate.Redirect? {
      return Redirected(gate.path);
    }
    var parsed := ParseCreatePost(input, isUrl);
    if parsed.Invalid? {
      return Returned(Err(FirstMessage(parsed.issues)));
    }
    var d := parsed.data;
    var slug := GenerateUniqueSlugAsWritten(db.posts, d.title, None, suffix);
    UniqueSlugAgreesWithoutExclusion(db.posts, d.title, None, suffix);
    var p := NewPost(id, d, render, slug, gate.user.id, now);
    var r := InsertPost(db, p, d.tagIds);
    o := Returned(r);
  }

  /** The inserts of `createPost` and the read-back of the new post. */
  method InsertPost(db: Database, p: PostRecord, tagIds: seq<string>) returns (r: ActionResult<PostView>)
    modifies db`posts, db`postTags
    ensures db.posts == old(db.posts) + [p]
    ensures db.postTags == old(db.postTags) + Map(LinkTo(p.id), tagIds)
    ensures (forall q :: q in old(db.posts) ==> q.id != p.id) ==>
      r == Ok(PostViewOf(db.users, db.comments, db.postTags, db.tags, p))
  {
    ghost var before := db.posts;
    db.posts := db.posts + [p];
    if |tagIds| > 0 {
      db.postTags := db.postTags + Map(LinkTo(p.id), tagIds);
    }
    assert db.postTags == old(db.postTags) + Map(LinkTo(p.id), tagIds);
    if forall q :: q in before ==> q.id != p.id {
      FindAppended(before, p);
    }
    r := GetPostById(db, p.id);
    if r.Err? {
      r := Err("Post created but could not be retrieved");
    }
  }

  /** A fresh id is found at the row just appended. */
  lemma {:induction false} FindAppended(rows: seq<PostRecord>, p: PostRecord)
    requires forall q :: q in rows ==> q.id != p.id
    ensures First(PostWithId(p.id), rows + [p]) == Some(p)
  {
    if rows == [] {
      assert rows + [p] == [p];
    } else {
      assert (rows + [p])[1..] == rows[1..] + [p];
      FindAppended(rows[1..], p);
    }
  }

  /** `updatePost`. */
  method UpdatePost(db: Database, session: Option<SessionUser>, postId: string, input: UpdatePostInput,
                    isUrl: string -> bool, render: string -> string, suffix: string, now: int)
    returns (o: Outcome<ActionResult<PostView>>)
    modifies db`posts, db`postTags
    ensures RequireAdmin(session).Redirect? ==>
      o == Redirected(RequireAdmin(session).path)
      && db.posts == old(db.posts) && db.postTags == old(db.postTags)
    ensures RequireAdmin(session).Pass? && postId == "" ==>
      o == Returned(Err("Post ID is required"))
      && db.posts == old(db.posts) && db.postTags == old(db.postTags)
    ensures RequireAdmin(session).Pass? && postId != "" && ParseUpdatePost(input, isUrl).Invalid? ==>
      o == Returned(Err(FirstMessage(ParseUpdatePost(input, isUrl).issues)))
      && db.posts == old(db.posts) && db.postTags == old(db.postTags)
    ensures RequireAdmin(session).Pass? && postId != "" && ParseUpdatePost(input, isUrl).Valid?
            && First(PostWithId(postId), old(db.posts)).None? ==>
      o == Returned(Err("Post not found"))
      && db.posts == old(db.posts) && db.postTags == old(db.postTags)
    ensures RequireAdmin(session).Pass? && postId != "" && ParseUpdatePost(input, isUrl).Valid?
            && First(PostWithId(postId), old(db.posts)).Some? ==>
      var current := First(PostWithId(postId), old(db.posts)).value;
      var d := ParseUpdatePost(input, isUrl).data;
      var c := UpdateChange(old(db.posts), current, postId, d, render, suffix, now);
      db.posts == UpdatePosts(old(db.posts), postId, c)
      && db.postTags == ReplaceTags(old(db.postTags), postId, d.tagIds)
      && o == Returned(Ok(PostViewOf(db.users, db.comments, db.postTags, db.tags, ApplyChange(current, c))))
  {
    var gate := RequireAdmin(session);
    if gate.Redirect? {
      return Redirected(gate.path);
    }
    if postId == "" {
      return Returned(Err("Post ID is required"));
    }
    var parsed := ParseUpdatePost(input, isUrl);
    if parsed.Invalid? {
      return Returned(Err(FirstMessage(parsed.issues)));
    }
    var d := parsed.data;
    var existing := First(PostWithId(postId), db.posts);
    if existing.None? {
      return Returned(Err("Post not found"));
    }
    var current := existing.value;
    var c := UpdateChange(db.posts, current, postId, d, render, suffix, now);
    var r := StoreUpdate(db, postId, current, c, d.tagIds);
    o := Returned(r);
  }

  /** The writes of `updatePost` and the read-back of the updated post. */
  method StoreUpdate(db: Database, postId: string, current: PostRecord, c: PostChange,
                     tagIds: Option<seq<string>>) returns (r: ActionResult<PostView>)
    requires First(PostWithId(postId), db.posts) == Some(current)
    modifies db`posts, db`postTags
    ensures db.posts == UpdatePosts(old(db.posts), postId, c)
    ensures db.postTags == ReplaceTags(old(db.postTags), postId, tagIds)
    ensures r == Ok(PostViewOf(db.users, db.comments, db.postTags, db.tags, ApplyChange(current, c)))
  {
    FindUpdated(db.posts, postId, c);
    db.posts := UpdatePosts(db.posts, postId, c);
    if tagIds.Some? {
      db.postTags := Filter(LinkNotOf(postId), db.postTags);
      if |tagIds.value| > 0 {
        db.postTags := db.postTags + Map(LinkTo(postId), tagIds.value);
      }
    }
    assert db.postTags == ReplaceTags(old(db.postTags), postId, tagIds);
    r := GetPostById(db, postId);
    if r.Err? {
      r := Err("Post updated but could not be retrieved");
    }
  }

  /** The `SET` list of `changePostStatus`. */
  function StatusChange(status: Status, publishedAt: Option<int>, now: int): (c: PostChange)
    ensures forall p :: ApplyChange(p, c) == p.(status := status, publishedAt := publishedAt, updatedAt := now)
  {
    PostChange(None, None, None, Absent, Absent, Some(status), None,
      if publishedAt.Some? then Present(publishedAt.value) else Null, now)
  }

  /** `changePostStatus`. The status is typed, so its "Invalid status value" branch has no
      input here. */
  method ChangePostStatus(db: Database, session: Option<SessionUser>, postId: string, status: Status, now: int)
    returns (o: Outcome<ActionResult<PostView>>)
    modifies db`posts
    ensures RequireAdmin(session).Redirect? ==>
      o == Redirected(RequireAdmin(session).path) && db.posts == old(db.posts)
    ensures RequireAdmin(session).Pass? && postId == "" ==>
      o == Returned(Err("Post ID is required")) && db.posts == old(db.posts)
    ensures RequireAdmin(session).Pass? && postId != "" && First(PostWithId(postId), old(db.posts)).None? ==>
      o == Returned(Err("Post not found")) && db.posts == old(db.posts)
    ensures RequireAdmin(session).Pass? && postId != "" && First(PostWithId(postId), old(db.posts)).Some? ==>
      var current := First(PostWithId(postId), old(db.posts)).value;
      var c := StatusChange(status, NextPublishedAt(current.publishedAt, Some(status), now), now);
      db.posts == UpdatePosts(old(db.posts), postId, c)
      && o == Returned(Ok(PostViewOf(db.users, db.comments, db.postTags, db.tags, ApplyChange(current, c))))
  {
    var gate := RequireAdmin(session);
    if gate.Redirect? {
      return Redirected(gate.path);
    }
    if postId == "" {
      return Returned(Err("Post ID is required"));
    }
    var existing := First(PostWithId(postId), db.posts);
    if existing.None? {
      return Returned(Err("Post not found"));
    }
    var current := existing.value;
    var publishedAt := NextPublishedAt(current.publishedAt, Some(status), now);
    var c := StatusChange(status, publishedAt, now);
    FindUpdated(db.posts, postId, c);
    db.posts := UpdatePosts(db.posts, postId, c);
    var result := GetPostById(db, postId);
    if result.Err? {
      return Returned(Err("Status changed but post could not be retrieved"));
    }
    o := Returned(Ok(result.data));
  }

  function NotPost(postId: string): PostRecord -> bool {
    (p: PostRecord) => p.id != postId
  }

  function NotOnPost(postId: string): CommentRecord -> bool {
    (c: CommentRecord) => c.postId != postId
  }

  /** `deletePost`. The post's links and comments go with it (`ON DELETE CASCADE`). */
  method DeletePost(db: Database, session: Option<SessionUser>, postId: string)
    returns (o: Outcome<ActionResult<Unit>>)
    modifies db`posts, db`postTags, db`comments
    ensures RequireAdmin(session).Redirect? ==>
      o == Redirected(RequireAdmin(session).path)
      && db.posts == old(db.posts) && db.postTags == old(db.postTags) && db.comments == old(db.comments)
    ensures RequireAdmin(session).Pass? && (postId == "" || First(PostWithId(postId), old(db.posts)).None?) ==>
      o == Returned(Err(if postId == "" then "Post ID is required" else "Post not found"))
      && db.posts == old(db.posts) && db.postTags == old(db.postTags) && db.comments == old(db.comments)
    ensures RequireAdmin(session).Pass? && postId != "" && First(PostWithId(postId), old(db.posts)).Some? ==>
      o == Returned(Ok(Unit))
      && db.posts == Filter(NotPost(postId), old(db.posts))
      && db.postTags == Filter(LinkNotOf(postId), old(db.postTags))
      && db.comments == Filter(NotOnPost(postId), old(db.comments))
  {
    var gate := RequireAdmin(session);
    if gate.Redirect? {
      return Redirected(gate.path);
    }
    if postId == "" {
      return Returned(Err("Post ID is required"));
    }
    if First(PostWithId(postId), db.posts).None? {
      return Returned(Err("Post not found"));
    }
    db.posts := Filter(NotPost(postId), db.posts);
    db.postTags := Filter(LinkNotOf(postId), db.postTags);
    db.comments := Filter(NotOnPost(postId), db.comments);
    o := Returned(Ok(Unit));
  }
}
