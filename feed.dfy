/** The RSS feed: `escapeXml`, the rows the feed lists and the item each row becomes. */
module Feed {
  import opened Wrappers
  import opened Schema
  import opened Seqs
  import opened Ordering

  /** `str.replace(/c/g, rep)`: every occurrence of `c` replaced by `rep`. */
  function ReplaceAll(s: string, c: char, rep: string): (r: string)
    ensures c !in rep ==> c !in r
    ensures forall x :: x in r ==> (x in s && x != c) || x in rep
  {
    if s == [] then []
    else (if s[0] == c then rep else [s[0]]) + ReplaceAll(s[1..], c, rep)
  }

  lemma {:induction false} ReplaceAllConcat(a: string, b: string, c: char, rep: string)
    ensures ReplaceAll(a + b, c, rep) == ReplaceAll(a, c, rep) + ReplaceAll(b, c, rep)
    decreases |a|
  {
    if a != [] {
      assert (a + b)[0] == a[0];
      assert (a + b)[1..] == a[1..] + b;
      ReplaceAllConcat(a[1..], b, c, rep);
      var h := if a[0] == c then rep else [a[0]];
      assert ReplaceAll(a + b, c, rep) == h + ReplaceAll(a[1..] + b, c, rep);
      assert ReplaceAll(a, c, rep) == h + ReplaceAll(a[1..], c, rep);
    } else {
      assert a + b == b;
    }
  }

  /** A string with no `c` is left alone. */
  lemma {:induction false} ReplaceAllAbsent(s: string, c: char, rep: string)
    requires c !in s
    ensures ReplaceAll(s, c, rep) == s
    decreases |s|
  {
    if s != [] {
      assert c !in s[1..];
      ReplaceAllAbsent(s[1..], c, rep);
      assert s == [s[0]] + s[1..];
    }
  }

  const AMP := "&amp;"
  const LT := "&lt;"
  const GT := "&gt;"

  /** The replacement chain with the three replacements as parameters. */
  function Chain(s: string, amp: string, lt: string, gt: string): string {
    ReplaceAll(ReplaceAll(ReplaceAll(s, '&', amp), '<', lt), '>', gt)
  }

  /** `escapeXml`: '&' first, then '<', then '>'. */
  function EscapeXml(str: string): string {
    Chain(str, AMP, LT, GT)
  }

  /** The escape of one character. */
  function EscapeChar(c: char, amp: string, lt: string, gt: string): string {
    if c == '&' then amp else if c == '<' then lt else if c == '>' then gt else [c]
  }

  /** The three replacements done in one pass. */
  function EscapeEach(s: string, amp: string, lt: string, gt: string): string {
    if s == [] then [] else EscapeChar(s[0], amp, lt, gt) + EscapeEach(s[1..], amp, lt, gt)
  }

  /** The replacements of the entities that later steps cannot touch. */
  predicate Replacements(amp: string, lt: string, gt: string) {
    '<' !in amp && '>' !in amp && '>' !in lt
  }

  lemma EntitiesAreReplacements()
    ensures Replacements(AMP, LT, GT)
  {
  }

  lemma ChainOfOne(x: char, amp: string, lt: string, gt: string)
    requires Replacements(amp, lt, gt)
    ensures Chain([x], amp, lt, gt) == EscapeChar(x, amp, lt, gt)
  {
    assert [x][1..] == [];
    assert ReplaceAll([x], '&', amp) == (if x == '&' then amp else [x]) + ReplaceAll([], '&', amp);
    if x == '&' {
      assert ReplaceAll([x], '&', amp) == amp;
      ReplaceAllAbsent(amp, '<', lt);
      ReplaceAllAbsent(amp, '>', gt);
    } else if x == '<' {
      assert ReplaceAll([x], '&', amp) == [x];
      assert ReplaceAll([x], '<', lt) == lt + ReplaceAll([], '<', lt);
      assert ReplaceAll([x], '<', lt) == lt;
      ReplaceAllAbsent(lt, '>', gt);
    } else {
      assert ReplaceAll([x], '<', lt) == [x] + ReplaceAll([], '<', lt);
      assert ReplaceAll([x], '>', gt) == (if x == '>' then gt else [x]) + ReplaceAll([], '>', gt);
    }
  }

  lemma ChainConcat(a: string, b: string, amp: string, lt: string, gt: string)
    ensures Chain(a + b, amp, lt, gt) == Chain(a, amp, lt, gt) + Chain(b, amp, lt, gt)
  {
    ReplaceAllConcat(a, b, '&', amp);
    var a1, b1 := ReplaceAll(a, '&', amp), ReplaceAll(b, '&', amp);
    ReplaceAllConcat(a1, b1, '<', lt);
    ReplaceAllConcat(ReplaceAll(a1, '<', lt), ReplaceAll(b1, '<', lt), '>', gt);
  }

  /** Since '&' is replaced first, no later step touches an entity an earlier one made:
      the chain is the one-pass escape. */
  lemma {:induction false} ChainIsOnePass(s: string, amp: string, lt: string, gt: string)
    requires Replacements(amp, lt, gt)
    ensures Chain(s, amp, lt, gt) == EscapeEach(s, amp, lt, gt)
    decreases |s|
  {
    if s != [] {
      assert s == [s[0]] + s[1..];
      ChainIsOnePass(s[1..], amp, lt, gt);
      ChainConcat([s[0]], s[1..], amp, lt, gt);
      ChainOfOne(s[0], amp, lt, gt);
    }
  }

  lemma EscapeIsOnePass(s: string)
    ensures EscapeXml(s) == EscapeEach(s, AMP, LT, GT)
  {
    EntitiesAreReplacements();
    ChainIsOnePass(s, AMP, LT, GT);
  }

  /** No '<' and no '>' survives. */
  lemma NoAngleBrackets(s: string)
    ensures '<' !in EscapeXml(s) && '>' !in EscapeXml(s)
  {
  }

  predicate StartsWithAt(r: string, k: nat, e: string)
    requires k <= |r|
  {
    k + |e| <= |r| && r[k..k + |e|] == e
  }

  predicate EntityAt(r: string, k: nat)
    requires k <= |r|
  {
    StartsWithAt(r, k, AMP) || StartsWithAt(r, k, LT) || StartsWithAt(r, k, GT)
  }

  lemma StartsShift(e: string, rest: string, k: nat, w: string)
    requires k <= |rest| && StartsWithAt(rest, k, w)
    ensures StartsWithAt(e + rest, |e| + k, w)
  {
    var x := e + rest;
    assert x[|e| + k..|e| + k + |w|] == rest[k..k + |w|];
  }

  lemma EntityShifts(e: string, rest: string, k: nat)
    requires k <= |rest| && EntityAt(rest, k)
    ensures EntityAt(e + rest, |e| + k)
  {
    if StartsWithAt(rest, k, AMP) {
      StartsShift(e, rest, k, AMP);
    } else if StartsWithAt(rest, k, LT) {
      StartsShift(e, rest, k, LT);
    } else {
      StartsShift(e, rest, k, GT);
    }
  }

  lemma EntityOfChar(c: char, rest: string)
    requires c == '&' || c == '<' || c == '>'
    ensures EntityAt(EscapeChar(c, AMP, LT, GT) + rest, 0)
  {
    var e := EscapeChar(c, AMP, LT, GT);
    assert (e + rest)[0..|e|] == e;
  }

  /** Every '&' of `r` begins one of the three entities. */
  predicate AmpersandsAreEntities(r: string) {
    forall k :: 0 <= k < |r| && r[k] == '&' ==> EntityAt(r, k)
  }

  /** Every '&' of the result begins one of the three entities the escape produces. */
  lemma {:induction false} AmpersandsBeginEntities(s: string)
    ensures AmpersandsAreEntities(EscapeEach(s, AMP, LT, GT))
    decreases |s|
  {
    if s != [] {
      AmpersandsBeginEntities(s[1..]);
      var e, rest := EscapeChar(s[0], AMP, LT, GT), EscapeEach(s[1..], AMP, LT, GT);
      var r := e + rest;
      assert r == EscapeEach(s, AMP, LT, GT);
      forall k | 0 <= k < |r| && r[k] == '&' ensures EntityAt(r, k) {
        if k < |e| {
          assert r[k] == e[k];
          assert k == 0 && (s[0] == '&' || s[0] == '<' || s[0] == '>');
          EntityOfChar(s[0], rest);
        } else {
          assert rest[k - |e|] == r[k] == '&';
          assert EntityAt(rest, k - |e|);
          EntityShifts(e, rest, k - |e|);
        }
      }
    }
  }

  /** Every '&' of the escaped text begins an entity, so the result holds no bare '&'. */
  lemma EscapedAmpersands(s: string)
    ensures AmpersandsAreEntities(EscapeXml(s))
  {
    EscapeIsOnePass(s);
    AmpersandsBeginEntities(s);
  }

  /** Reading entities back, with the entity strings as parameters. */
  function UnescapeWith(r: string, amp: string, lt: string, gt: string): string
    requires amp != [] && lt != [] && gt != []
    decreases |r|
  {
    if r == [] then []
    else if StartsWithAt(r, 0, amp) then "&" + UnescapeWith(r[|amp|..], amp, lt, gt)
    else if StartsWithAt(r, 0, lt) then "<" + UnescapeWith(r[|lt|..], amp, lt, gt)
    else if StartsWithAt(r, 0, gt) then ">" + UnescapeWith(r[|gt|..], amp, lt, gt)
    else [r[0]] + UnescapeWith(r[1..], amp, lt, gt)
  }

  /** Reading the three entities back. */
  function Unescape(r: string): string {
    UnescapeWith(r, AMP, LT, GT)
  }

  /** Entities that begin with '&' and differ from one another in their second
      character, so none can be mistaken for another. */
  predicate Decodable(amp: string, lt: string, gt: string) {
    |amp| >= 2 && |lt| >= 2 && |gt| >= 2 && amp[0] == '&' && lt[0] == '&' && gt[0] == '&'
    && amp[1] != lt[1] && amp[1] != gt[1] && lt[1] != gt[1]
  }

  lemma EntitiesDecodable()
    ensures Decodable(AMP, LT, GT)
  {
    assert AMP[1] != LT[1] && AMP[1] != GT[1] && LT[1] != GT[1];
  }

  lemma StartsOfConcat(e: string, rest: string, w: string)
    requires StartsWithAt(e, 0, w)
    ensures StartsWithAt(e + rest, 0, w)
  {
    assert (e + rest)[..|w|] == e[..|w|];
  }

  lemma NotStartsOfConcat(e: string, rest: string, w: string)
    requires |e| >= 2 && |w| >= 2 && e[1] != w[1]
    ensures !StartsWithAt(e + rest, 0, w)
  {
    var r := e + rest;
    assert r[1] != w[1];
    assert |w| <= |r| ==> r[0..|w|][1] == r[1];
  }

  lemma UnescapeStep(c: char, rest: string, amp: string, lt: string, gt: string)
    requires Decodable(amp, lt, gt)
    ensures var e := EscapeChar(c, amp, lt, gt);
      UnescapeWith(e + rest, amp, lt, gt) == [c] + UnescapeWith(rest, amp, lt, gt)
  {
    var e := EscapeChar(c, amp, lt, gt);
    var r := e + rest;
    assert r[|e|..] == rest;
    if c == '&' {
      StartsOfConcat(e, rest, amp);
    } else if c == '<' {
      StartsOfConcat(e, rest, lt);
      NotStartsOfConcat(e, rest, amp);
    } else if c == '>' {
      StartsOfConcat(e, rest, gt);
      NotStartsOfConcat(e, rest, amp);
      NotStartsOfConcat(e, rest, lt);
    } else {
      assert r[0] == c;
    }
  }

  lemma {:induction false} UnescapeEachWith(s: string, amp: string, lt: string, gt: string)
    requires Decodable(amp, lt, gt)
    ensures UnescapeWith(EscapeEach(s, amp, lt, gt), amp, lt, gt) == s
    decreases |s|
  {
    if s != [] {
      UnescapeEachWith(s[1..], amp, lt, gt);
      UnescapeStep(s[0], EscapeEach(s[1..], amp, lt, gt), amp, lt, gt);
      assert s == [s[0]] + s[1..];
    }
  }

  /** Decoding the entities gives back the original text. */
  lemma UnescapeInverts(s: string)
    ensures Unescape(EscapeXml(s)) == s
  {
    EscapeIsOnePass(s);
    EntitiesDecodable();
    UnescapeEachWith(s, AMP, LT, GT);
  }

  /** Text with none of the three characters comes out unchanged. */
  lemma PlainTextUnchanged(s: string)
    requires '&' !in s && '<' !in s && '>' !in s
    ensures EscapeXml(s) == s
  {
    ReplaceAllAbsent(s, '&', AMP);
    ReplaceAllAbsent(s, '<', LT);
    ReplaceAllAbsent(s, '>', GT);
  }

  /** A row of the feed select: the post left-joined with its author's name. */
  datatype FeedRow = FeedRow(
    title: string, slug: string, excerpt: Option<string>, content: string,
    publishedAt: Option<int>, authorName: Option<string>)

  /** An item's fields. `pubDate` is the formatted date, or empty without one. */
  datatype FeedItem = FeedItem(
    title: string, link: string, guid: string, pubDate: string, description: string,
    author: string)

  const DEFAULT_BASE_URL := "https://chakyiu.blog"
  const DEFAULT_AUTHOR := "ChaKyiu"
  const FEED_LIMIT: nat := 20
  const DESCRIPTION_LENGTH: nat := 200

  /** `process.env.NEXT_PUBLIC_BASE_URL ?? 'https://chakyiu.blog'`. */
  function BaseUrl(env: Option<string>): string {
    env.GetOr(DEFAULT_BASE_URL)
  }

  /** The item of one row. `toRFC822` stands for the date formatting. */
  function ItemOf(baseUrl: string, row: FeedRow, toRFC822: int -> string): (item: FeedItem)
    ensures item.link == item.guid == baseUrl + "/posts/" + row.slug
    ensures item.title == EscapeXml(row.title)
    ensures Truthy(row.excerpt) ==> item.description == row.excerpt.value
    ensures !Truthy(row.excerpt) ==> item.description == Take(row.content, DESCRIPTION_LENGTH)
    ensures Truthy(row.authorName) ==> item.author == row.authorName.value
    ensures !Truthy(row.authorName) ==> item.author == DEFAULT_AUTHOR
    ensures row.publishedAt.Some? ==> item.pubDate == toRFC822(row.publishedAt.value)
    ensures row.publishedAt.None? ==> item.pubDate == ""
  {
    var link := baseUrl + "/posts/" + row.slug;
    FeedItem(
      EscapeXml(row.title), link, link,
      if row.publishedAt.Some? then toRFC822(row.publishedAt.value) else "",
      if Truthy(row.excerpt) then row.excerpt.value else Take(row.content, DESCRIPTION_LENGTH),
      if Truthy(row.authorName) then row.authorName.value else DEFAULT_AUTHOR)
  }

  /** The description is never longer than the excerpt or 200 characters. */
  lemma DescriptionBounded(baseUrl: string, row: FeedRow, toRFC822: int -> string)
    ensures !Truthy(row.excerpt) ==> |ItemOf(baseUrl, row, toRFC822).description| <= DESCRIPTION_LENGTH
    ensures |ItemOf(baseUrl, row, toRFC822).description| <= DESCRIPTION_LENGTH || Truthy(row.excerpt)
  {
  }

  function RowOf(users: seq<UserRecord>): PostRecord -> FeedRow {
    (p: PostRecord) =>
      var author := if p.authorId.Some? then First(UserWithId(p.authorId.value), users) else None;
      FeedRow(p.title, p.slug, p.excerpt, p.content, p.publishedAt,
        if author.Some? then author.value.name else None)
  }

  predicate IsPublished(p: PostRecord) { p.status == Published }
  predicate Undated(p: PostRecord) { p.publishedAt.None? }
  predicate Dated(p: PostRecord) { p.publishedAt.Some? }

  function NewestFirst(p: PostRecord): int {
    if p.publishedAt.Some? then -p.publishedAt.value else 0
  }

  /** `WHERE status = 'published' ORDER BY publishedAt DESC LIMIT 20`; in descending
      order the database puts rows without a date first. */
  function FeedPosts(posts: seq<PostRecord>): seq<PostRecord> {
    var published := Filter(IsPublished, posts);
    Take(Filter(Undated, published) + SortBy(Filter(Dated, published), NewestFirst), FEED_LIMIT)
  }

  /** Every row of the feed is a published post. */
  lemma FeedPostsArePublished(posts: seq<PostRecord>)
    ensures |FeedPosts(posts)| <= FEED_LIMIT
    ensures forall p :: p in FeedPosts(posts) ==> p in posts && p.status == Published
  {
    var published := Filter(IsPublished, posts);
    var undated := Filter(Undated, published);
    var dated := Filter(Dated, published);
    var all := undated + SortBy(dated, NewestFirst);
    var f := FeedPosts(posts);
    forall p | p in f ensures p in all {
      var i :| 0 <= i < |f| && f[i] == p;
      assert p == all[i];
    }
    forall p | p in all ensures p in published {
      MemberOfSorted(dated, NewestFirst, p);
    }
  }

  /** Dated rows after undated ones, the dated ones sorted newest first: once a row has a
      date, every later row has one no newer. */
  lemma DatedAfterUndated(u: seq<PostRecord>, d: seq<PostRecord>, n: nat)
    requires forall k :: 0 <= k < |u| ==> Undated(u[k])
    requires forall k :: 0 <= k < |d| ==> Dated(d[k])
    requires SortedBy(d, NewestFirst)
    ensures var f := Take(u + d, n);
      forall i, j :: 0 <= i < j < |f| && f[i].publishedAt.Some? ==>
        (f[j].publishedAt.Some? && f[i].publishedAt.value >= f[j].publishedAt.value)
  {
    var all := u + d;
    var f := Take(all, n);
    forall i, j | 0 <= i < j < |f| && f[i].publishedAt.Some?
      ensures f[j].publishedAt.Some? && f[i].publishedAt.value >= f[j].publishedAt.value
    {
      assert f[i] == all[i] && f[j] == all[j];
      assert i >= |u|;
      assert all[i] == d[i - |u|] && all[j] == d[j - |u|];
      assert NewestFirst(d[i - |u|]) <= NewestFirst(d[j - |u|]);
    }
  }

  /** Dated rows keep their date through the sort. */
  lemma SortedStaysDated(dated: seq<PostRecord>)
    requires forall p :: p in dated ==> Dated(p)
    ensures forall k :: 0 <= k < |SortBy(dated, NewestFirst)| ==> Dated(SortBy(dated, NewestFirst)[k])
  {
    var s := SortBy(dated, NewestFirst);
    forall k | 0 <= k < |s| ensures Dated(s[k]) {
      assert s[k] in s;
      MemberOfSorted(dated, NewestFirst, s[k]);
    }
  }

  /** At most 20 published posts; once a row carries a date, every later one carries a
      date no newer. */
  lemma FeedPostsAre(posts: seq<PostRecord>)
    ensures |FeedPosts(posts)| <= FEED_LIMIT
    ensures forall p :: p in FeedPosts(posts) ==> p in posts && p.status == Published
    ensures forall i, j :: 0 <= i < j < |FeedPosts(posts)| && FeedPosts(posts)[i].publishedAt.Some? ==>
      (FeedPosts(posts)[j].publishedAt.Some?
       && FeedPosts(posts)[i].publishedAt.value >= FeedPosts(posts)[j].publishedAt.value)
  {
    FeedPostsArePublished(posts);
    var published := Filter(IsPublished, posts);
    var undated := Filter(Undated, published);
    var dated := Filter(Dated, published);
    assert forall k :: 0 <= k < |undated| ==> undated[k] in undated;
    SortedStaysDated(dated);
    DatedAfterUndated(undated, SortBy(dated, NewestFirst), FEED_LIMIT);
  }

  /** The item of one post. */
  function ItemFor(baseUrl: string, users: seq<UserRecord>, toRFC822: int -> string): PostRecord -> FeedItem {
    (p: PostRecord) => ItemOf(baseUrl, RowOf(users)(p), toRFC822)
  }

  /** The items of the feed, in the order of its rows. */
  function FeedItems(posts: seq<PostRecord>, users: seq<UserRecord>, env: Option<string>,
                     toRFC822: int -> string): seq<FeedItem> {
    Map(ItemFor(BaseUrl(env), users, toRFC822), FeedPosts(posts))
  }

  /** Each item is the item of a published post: its link names the post's slug under the
      base URL and its title is the escaped title. */
  lemma FeedItemsAre(posts: seq<PostRecord>, users: seq<UserRecord>, env: Option<string>,
                     toRFC822: int -> string)
    ensures |FeedItems(posts, users, env, toRFC822)| <= FEED_LIMIT
    ensures forall i :: 0 <= i < |FeedItems(posts, users, env, toRFC822)| ==>
      var item := FeedItems(posts, users, env, toRFC822)[i];
      var p := FeedPosts(posts)[i];
      p in posts && p.status == Published
      && item.link == BaseUrl(env) + "/posts/" + p.slug && item.title == EscapeXml(p.title)
  {
    FeedPostsArePublished(posts);
    var f := FeedPosts(posts);
    var items := FeedItems(posts, users, env, toRFC822);
    forall i | 0 <= i < |items|
      ensures f[i] in posts && f[i].status == Published
      ensures items[i].link == BaseUrl(env) + "/posts/" + f[i].slug
      ensures items[i].title == EscapeXml(f[i].title)
    {
      assert f[i] in f;
      assert items[i] == ItemOf(BaseUrl(env), RowOf(users)(f[i]), toRFC822);
    }
  }
}
