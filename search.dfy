/** `searchPosts`: the full-text query built from the user's words, the published posts it
    matches, and the result rows with their authors and tags. */
module Search {
  import opened Wrappers
  import opened Schema
  import opened Types
  import opened Text
  import opened Seqs
  import opened Ordering
  import opened Grouping
  import opened Posts
  import Constants

  /** The characters `[a-zA-Z0-9\u4e00-\u9fff]` keeps in a query word. */
  predicate SearchChar(c: char) {
    IsAlnum(c) || ('\U{4E00}' <= c <= '\U{9FFF}')
  }

  /** `w.replace(/[^a-zA-Z0-9\u4e00-\u9fff]/g, '')`. */
  function CleanWord(w: string): (r: string)
    ensures forall k :: 0 <= k < |r| ==> SearchChar(r[k])
    ensures forall c :: c in r <==> c in w && SearchChar(c)
  {
    var r := Filter(SearchChar, w);
    assert |r| == 0 || r[0] in r;
    r
  }

  predicate NonEmpty(w: string) { w != [] }

  /** The operands of the query: the whitespace-separated words of the trimmed query,
      cleaned, the empty ones dropped. */
  function Terms(query: string): seq<string> {
    Filter(NonEmpty, Map(CleanWord, Words(Trim(query))))
  }

  /** `tsQuery`: the operands joined with " & ". */
  function TsQuery(query: string): string {
    Join(Terms(query), " & ")
  }

  /** A well-formed conjunction of operands: only kept characters, spaces and '&'; it
      begins and ends with a kept character; every '&' stands between two spaces that
      stand between kept characters; and every space is next to an '&'. */
  ghost predicate QueryShape(r: string) {
    (forall k :: 0 <= k < |r| ==> SearchChar(r[k]) || r[k] == ' ' || r[k] == '&')
    && (r != [] ==> SearchChar(r[0]) && SearchChar(r[|r| - 1]))
    && (forall k :: AmpAt(r, k) ==> AmpOk(r, k))
    && (forall k :: SpaceAt(r, k) ==> SpaceOk(r, k))
  }

  predicate AmpAt(r: string, k: int) { 0 <= k < |r| && r[k] == '&' }

  /** An '&' between two spaces, which stand between kept characters. */
  predicate AmpOk(r: string, k: int) {
    2 <= k < |r| - 2 && r[k - 1] == ' ' && r[k + 1] == ' ' && SearchChar(r[k - 2]) && SearchChar(r[k + 2])
  }

  predicate SpaceAt(r: string, k: int) { 0 <= k < |r| && r[k] == ' ' }

  /** A space next to an '&'. */
  predicate SpaceOk(r: string, k: int)
    requires 0 <= k < |r|
  {
    (0 < k && r[k - 1] == '&') || (k + 1 < |r| && r[k + 1] == '&')
  }

  predicate IsTerm(t: string) {
    t != [] && forall k :: 0 <= k < |t| ==> SearchChar(t[k])
  }

  /** One more operand in front keeps the shape. */
  lemma ConsShape(t: string, b: string)
    requires IsTerm(t) && b != [] && QueryShape(b)
    ensures QueryShape(t + " & " + b)
  {
    var x := t + " & " + b;
    ConsIndex(t, b);
    ConsChars(x, t, b);
    ConsAmpersands(x, t, b);
    ConsSpaces(x, t, b);
  }

  /** Where the parts of `t + " & " + b` sit. */
  predicate ConsAt(x: string, t: string, b: string) {
    |x| == |t| + 3 + |b|
    && (forall k :: 0 <= k < |t| ==> x[k] == t[k])
    && x[|t|] == ' ' && x[|t| + 1] == '&' && x[|t| + 2] == ' '
    && (forall k :: 0 <= k < |b| ==> x[|t| + 3 + k] == b[k])
  }

  lemma ConsIndex(t: string, b: string)
    ensures ConsAt(t + " & " + b, t, b)
  {
  }

  lemma ConsChars(x: string, t: string, b: string)
    requires IsTerm(t) && b != [] && QueryShape(b) && ConsAt(x, t, b)
    ensures forall k :: 0 <= k < |x| ==> SearchChar(x[k]) || x[k] == ' ' || x[k] == '&'
    ensures SearchChar(x[0]) && SearchChar(x[|x| - 1])
  {
    forall k | |t| + 3 <= k < |x| ensures x[k] == b[k - |t| - 3] {
      assert x[|t| + 3 + (k - |t| - 3)] == b[k - |t| - 3];
    }
  }

  lemma ConsAmpersands(x: string, t: string, b: string)
    requires IsTerm(t) && b != [] && QueryShape(b) && ConsAt(x, t, b)
    ensures forall k :: AmpAt(x, k) ==> AmpOk(x, k)
  {
    var n := |t|;
    forall k | AmpAt(x, k) ensures AmpOk(x, k) {
      if k == n + 1 {
        assert x[k - 2] == t[n - 1] && x[k + 2] == b[0];
      } else if k >= n + 3 {
        var m := k - n - 3;
        assert x[k] == b[m];
        assert AmpAt(b, m);
        assert x[k - 1] == b[m - 1] && x[k + 1] == b[m + 1];
        assert x[k - 2] == b[m - 2] && x[k + 2] == b[m + 2];
      }
    }
  }

  lemma ConsSpaces(x: string, t: string, b: string)
    requires IsTerm(t) && b != [] && QueryShape(b) && ConsAt(x, t, b)
    ensures forall k :: SpaceAt(x, k) ==> SpaceOk(x, k)
  {
    var n := |t|;
    forall k | SpaceAt(x, k) ensures SpaceOk(x, k) {
      if k >= n + 3 {
        var m := k - n - 3;
        assert x[k] == b[m];
        assert SpaceAt(b, m);
        if 0 < m && b[m - 1] == '&' {
          assert x[k - 1] == b[m - 1];
        } else {
          assert x[k + 1] == b[m + 1];
        }
      }
    }
  }

  lemma {:induction false} JoinShape(terms: seq<string>)
    requires forall i :: 0 <= i < |terms| ==> IsTerm(terms[i])
    ensures QueryShape(Join(terms, " & "))
    ensures Join(terms, " & ") == [] <==> terms == []
    decreases |terms|
  {
    if |terms| == 1 {
      assert Join(terms, " & ") == terms[0];
    } else if |terms| > 1 {
      JoinShape(terms[1..]);
      assert terms[1..][0] == terms[1];
      ConsShape(terms[0], Join(terms[1..], " & "));
    }
  }

  lemma TermsAreTerms(query: string)
    ensures forall i :: 0 <= i < |Terms(query)| ==> IsTerm(Terms(query)[i])
  {
    var ts := Terms(query);
    forall i | 0 <= i < |ts| ensures IsTerm(ts[i]) {
      assert ts[i] in ts;
      var cleaned := Map(CleanWord, Words(Trim(query)));
      var j :| 0 <= j < |cleaned| && cleaned[j] == ts[i];
    }
  }

  /** The query passed to `to_tsquery` is a well-formed conjunction: no empty operand and
      no separator at either end. */
  lemma TsQueryShape(query: string)
    ensures QueryShape(TsQuery(query))
    ensures TsQuery(query) == [] <==> Terms(query) == []
  {
    TermsAreTerms(query);
    JoinShape(Terms(query));
  }

  /** A blank query has no operands. */
  lemma BlankQueryHasNoTerms(query: string)
    requires Trim(query) == []
    ensures TsQuery(query) == []
  {
    assert Words(Trim(query)) == [];
  }

  /** Every character of a word comes from the text it was split from. */
  lemma {:induction false} WordsFrom(s: string)
    ensures forall w, c :: w in Words(s) && c in w ==> c in s
    decreases |s|
  {
    var t := TrimStart(s);
    if t != [] {
      var n := RunLength(t);
      WordsFrom(t[n..]);
      assert Words(s) == [t[..n]] + Words(t[n..]);
      forall w, c | w in Words(s) && c in w ensures c in s {
        if w == t[..n] {
          assert c in t;
        } else {
          assert w in Words(t[n..]);
          assert c in t;
        }
      }
    }
  }

  lemma TrimFrom(s: string)
    ensures forall c :: c in Trim(s) ==> c in s
  {
    TrimIsSlice(s);
    var a, b :| 0 <= a <= b <= |s| && Trim(s) == s[a..b];
    assert forall c :: c in s[a..b] ==> c in s;
  }

  lemma CleanedEmpty(w: string)
    requires forall c :: c in w ==> !SearchChar(c)
    ensures CleanWord(w) == []
  {
    FilterNone(SearchChar, w);
  }

  /** Words made of characters none of which is kept clean to nothing. */
  lemma CleanedAllEmpty(query: string)
    requires forall k :: 0 <= k < |query| ==> !SearchChar(query[k])
    ensures forall x :: x in Map(CleanWord, Words(Trim(query))) ==> !NonEmpty(x)
  {
    var words := Words(Trim(query));
    WordsFrom(Trim(query));
    TrimFrom(query);
    var cleaned := Map(CleanWord, words);
    forall x | x in cleaned ensures !NonEmpty(x) {
      var i :| 0 <= i < |cleaned| && cleaned[i] == x;
      assert words[i] in words;
      CleanedEmpty(words[i]);
    }
  }

  /** A query none of whose characters is kept has no operands, so the search returns
      nothing. */
  lemma NothingKeptNoQuery(query: string)
    requires forall k :: 0 <= k < |query| ==> !SearchChar(query[k])
    ensures TsQuery(query) == []
  {
    CleanedAllEmpty(query);
    FilterNone(NonEmpty, Map(CleanWord, Words(Trim(query))));
  }

  /** The placeholder author of a result whose author row is missing. */
  const UNKNOWN_AUTHOR := UserView("", Some("Unknown"), "", None, User, 0)

  /** `authorMap.get(row.authorId)` when the author id is set, else the placeholder. */
  function SearchAuthor(users: seq<UserRecord>, authorId: Option<string>): (v: UserView)
    ensures Truthy(authorId) && First(UserWithId(authorId.value), users).Some? ==>
      var u := First(UserWithId(authorId.value), users).value;
      v == UserView(u.id, u.name, u.email, u.image, u.role, u.createdAt) && u.id == authorId.value
    ensures !Truthy(authorId) || First(UserWithId(authorId.value), users).None? ==> v == UNKNOWN_AUTHOR
  {
    if !Truthy(authorId) then UNKNOWN_AUTHOR
    else match First(UserWithId(authorId.value), users)
      case None => UNKNOWN_AUTHOR
      case Some(u) => UserView(u.id, u.name, u.email, u.image, u.role, u.createdAt)
  }

  /** The text-search engine, which the model takes as given: whether a post's title and
      content match a query, its rank and its highlighted snippet. */
  datatype Engine = Engine(
    matches: (PostRecord, string) -> bool, score: (PostRecord, string) -> int,
    headline: (PostRecord, string) -> string)

  function Hit(engine: Engine, q: string): PostRecord -> bool {
    (p: PostRecord) => engine.matches(p, q) && p.status == Published
  }

  /** `ORDER BY score DESC` as an ascending sort on the negated score. */
  function Rank(engine: Engine, q: string): PostRecord -> int {
    (p: PostRecord) => -engine.score(p, q)
  }

  /** The rows of the full-text select: matching published posts, best first, at most
      `SEARCH_RESULTS_PER_PAGE` of them. */
  function Hits(posts: seq<PostRecord>, engine: Engine, q: string): seq<PostRecord> {
    Take(SortBy(Filter(Hit(engine, q), posts), Rank(engine, q)), Constants.SEARCH_RESULTS_PER_PAGE)
  }

  function ResultOf(users: seq<UserRecord>, engine: Engine, q: string, p: PostRecord,
                    tags: seq<TagView>): SearchResult {
    SearchResult(p.id, p.title, p.slug, p.excerpt, engine.headline(p, q), engine.score(p, q),
      p.publishedAt, SearchAuthor(users, p.authorId), tags)
  }

  function ResultWithTags(users: seq<UserRecord>, links: seq<PostTagRecord>, tags: seq<TagRecord>,
                          engine: Engine, q: string): PostRecord -> SearchResult {
    (p: PostRecord) => ResultOf(users, engine, q, p, TagsOf(links, tags, p.id))
  }

  /** What `searchPosts` answers: nothing for a query with no operands, otherwise one result
      per hit, in rank order. */
  function SearchResults(users: seq<UserRecord>, posts: seq<PostRecord>, links: seq<PostTagRecord>,
                         tags: seq<TagRecord>, engine: Engine, query: string): seq<SearchResult> {
    var q := TsQuery(query);
    if q == [] then [] else Map(ResultWithTags(users, links, tags, engine, q), Hits(posts, engine, q))
  }

  /** The hits are published posts that match the query, at most 20 of them, best first. */
  lemma HitsAre(posts: seq<PostRecord>, engine: Engine, q: string)
    ensures |Hits(posts, engine, q)| <= Constants.SEARCH_RESULTS_PER_PAGE
    ensures forall p :: p in Hits(posts, engine, q) ==>
      p in posts && p.status == Published && engine.matches(p, q)
    ensures forall i, j :: 0 <= i < j < |Hits(posts, engine, q)| ==>
      engine.score(Hits(posts, engine, q)[i], q) >= engine.score(Hits(posts, engine, q)[j], q)
  {
    var hits := Hits(posts, engine, q);
    var sorted := SortBy(Filter(Hit(engine, q), posts), Rank(engine, q));
    forall p | p in hits ensures p in posts && p.status == Published && engine.matches(p, q) {
      var i :| 0 <= i < |hits| && hits[i] == p;
      assert p == sorted[i];
      MemberOfSorted(Filter(Hit(engine, q), posts), Rank(engine, q), p);
    }
    forall i, j | 0 <= i < j < |hits| ensures engine.score(hits[i], q) >= engine.score(hits[j], q) {
      assert hits[i] == sorted[i] && hits[j] == sorted[j];
      assert Rank(engine, q)(sorted[i]) <= Rank(engine, q)(sorted[j]);
    }
  }

  /** One result per hit, in the same order, carrying the hit's own tags, score and
      author (the placeholder exactly when the author row is missing). */
  lemma SearchResultsAre(users: seq<UserRecord>, posts: seq<PostRecord>, links: seq<PostTagRecord>,
                         tags: seq<TagRecord>, engine: Engine, query: string)
    ensures TsQuery(query) == [] ==> SearchResults(users, posts, links, tags, engine, query) == []
    ensures TsQuery(query) != [] ==>
      var rs := SearchResults(users, posts, links, tags, engine, query);
      var hits := Hits(posts, engine, TsQuery(query));
      |rs| == |hits|
      && forall i :: 0 <= i < |rs| ==>
        rs[i].id == hits[i].id && rs[i].tags == TagsOf(links, tags, hits[i].id)
        && rs[i].relevanceScore == engine.score(hits[i], TsQuery(query))
        && rs[i].author == SearchAuthor(users, hits[i].authorId)
  {
  }

  function ResultFromMap(users: seq<UserRecord>, engine: Engine, q: string,
                         tagsMap: map<string, seq<TagView>>): PostRecord -> SearchResult {
    (p: PostRecord) => ResultOf(users, engine, q, p, Lookup(tagsMap, p.id))
  }

  /** The results read through the grouped map are the results with each post's tags. */
  lemma SameResults(db: Database, engine: Engine, q: string, rows: seq<PostRecord>, postIds: seq<string>,
                    tagsMap: map<string, seq<TagView>>)
    requires postIds == Map(PostId, rows)
    requires forall id :: id in postIds ==> Lookup(tagsMap, id) == TagsOf(db.postTags, db.tags, id)
    ensures Map(ResultFromMap(db.users, engine, q, tagsMap), rows)
      == Map(ResultWithTags(db.users, db.postTags, db.tags, engine, q), rows)
  {
    var a := Map(ResultFromMap(db.users, engine, q, tagsMap), rows);
    var b := Map(ResultWithTags(db.users, db.postTags, db.tags, engine, q), rows);
    forall i | 0 <= i < |rows| ensures a[i] == b[i] {
      assert postIds[i] == rows[i].id;
      assert postIds[i] in postIds;
    }
  }

  /** `searchPosts`. The tags of the hits are grouped by the same loop that
      `fetchTagsForPosts` runs; the engine's failures are not modelled. */
  method SearchPosts(db: Database, engine: Engine, query: string) returns (r: ActionResult<seq<SearchResult>>)
    ensures Trim(query) == [] ==> r == Ok([])
    ensures r == Ok(SearchResults(db.users, db.posts, db.postTags, db.tags, engine, query))
  {
    if Trim(query) == [] {
      BlankQueryHasNoTerms(query);
      return Ok([]);
    }
    var q := TsQuery(query);
    if q == [] {
      return Ok([]);
    }
    var rows := Hits(db.posts, engine, q);
    if |rows| == 0 {
      return Ok([]);
    }
    var postIds := Map(PostId, rows);
    var tagsMap := FetchTagsForPosts(db, postIds);
    var results := Map(ResultFromMap(db.users, engine, q, tagsMap), rows);
    SameResults(db, engine, q, rows, postIds, tagsMap);
    r := Ok(results);
  }
}
