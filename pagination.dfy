/** The pagination bar under a list: which page numbers it shows, where each link goes,
    and when the previous and next buttons are live. */
module Pagination {
  import opened Wrappers
  import opened Text
  import opened Seqs

  const MAX_VISIBLE_PAGES: int := 7
  /** The entry that stands for an ellipsis. */
  const ELLIPSIS: int := -1

  /** The pages `lo`, `lo + 1`, ..., `hi`, none when `hi < lo`. */
  function Range(lo: int, hi: int): (r: seq<int>)
    ensures |r| == if hi < lo then 0 else hi - lo + 1
    ensures forall k :: 0 <= k < |r| ==> r[k] == lo + k
  {
    if hi < lo then [] else seq(hi - lo + 1, k => lo + k)
  }

  /** The entries `getPageNumbers` returns. Up to seven pages all are shown; beyond that,
      the first and last page always, and near the current page either the first five,
      the last five, or the current page with its two neighbours, with an ellipsis for
      each hidden run. */
  function PageNumbers(current: int, total: int): seq<int> {
    if total <= MAX_VISIBLE_PAGES then Range(1, total)
    else if current <= 4 then Range(1, 5) + [ELLIPSIS, total]
    else if current >= total - 3 then [1, ELLIPSIS] + Range(total - 4, total)
    else [1, ELLIPSIS, current - 1, current, current + 1, ELLIPSIS, total]
  }

  /** `getPageNumbers`, pushing one entry at a time. */
  method GetPageNumbers(current: int, total: int) returns (pages: seq<int>)
    ensures pages == PageNumbers(current, total)
  {
    pages := [];
    if total <= MAX_VISIBLE_PAGES {
      var i := 1;
      while i <= total
        invariant i == 1 || 1 <= i <= total + 1
        invariant pages == Range(1, i - 1)
      {
        pages := pages + [i];
        i := i + 1;
      }
      assert Range(1, i - 1) == Range(1, total);
    } else if current <= 4 {
      var i := 1;
      while i <= 5
        invariant 1 <= i <= 6
        invariant pages == Range(1, i - 1)
      {
        pages := pages + [i];
        i := i + 1;
      }
      assert pages == Range(1, 5);
      pages := pages + [ELLIPSIS, total];
    } else if current >= total - 3 {
      pages := pages + [1];
      pages := pages + [ELLIPSIS];
      var i := total - 4;
      while i <= total
        invariant total - 4 <= i <= total + 1
        invariant pages == [1, ELLIPSIS] + Range(total - 4, i - 1)
      {
        pages := pages + [i];
        i := i + 1;
      }
      assert i - 1 == total;
    } else {
      pages := [1, ELLIPSIS, current - 1, current, current + 1, ELLIPSIS, total];
    }
  }

  /** Up to seven pages, every page is listed, in order. */
  lemma FewPagesAllShown(current: int, total: int)
    requires total <= MAX_VISIBLE_PAGES
    ensures |PageNumbers(current, total)| == if total < 0 then 0 else total
    ensures forall k :: 0 <= k < |PageNumbers(current, total)| ==> PageNumbers(current, total)[k] == k + 1
  {
  }

  /** Beyond seven pages, exactly seven entries, from page 1 to the last page. */
  lemma ManyPagesSevenEntries(current: int, total: int)
    requires total > MAX_VISIBLE_PAGES
    ensures |PageNumbers(current, total)| == 7
    ensures PageNumbers(current, total)[0] == 1 && PageNumbers(current, total)[6] == total
  {
  }

  /** The shape of a gap: an ellipsis sits between two pages and hides at least two. */
  predicate GapAt(r: seq<int>, k: int)
    requires 0 <= k < |r|
  {
    0 < k < |r| - 1 && r[k - 1] != ELLIPSIS && r[k + 1] != ELLIPSIS && r[k + 1] - r[k - 1] >= 3
  }

  /** Every entry is an ellipsis or a page between 1 and the last page; the pages strictly
      increase; and every ellipsis stands between two pages for at least two hidden ones. */
  lemma PageNumbersWellFormed(current: int, total: int)
    ensures var r := PageNumbers(current, total);
      forall k :: 0 <= k < |r| ==> r[k] == ELLIPSIS || 1 <= r[k] <= total
    ensures var r := PageNumbers(current, total);
      forall i, j :: 0 <= i < j < |r| && r[i] != ELLIPSIS && r[j] != ELLIPSIS ==> r[i] < r[j]
    ensures var r := PageNumbers(current, total);
      forall k :: 0 <= k < |r| && r[k] == ELLIPSIS ==> GapAt(r, k)
  {
  }

  /** The current page, when it is a real page, is always among the entries. */
  lemma CurrentPageShown(current: int, total: int)
    requires 1 <= current <= total
    ensures current in PageNumbers(current, total)
  {
    var r := PageNumbers(current, total);
    if total <= MAX_VISIBLE_PAGES {
      assert r[current - 1] == current;
    } else if current <= 4 {
      assert r[current - 1] == current;
    } else if current >= total - 3 {
      assert r[current - total + 6] == current;
    } else {
      assert r[3] == current;
    }
  }

  /** A query value: absent, one string, or several. */
  datatype ParamValue = Missing | One(value: string) | Several(values: seq<string>)

  /** The pairs one search parameter contributes: none for `page` or a falsy value, one
      for a string, one per element for an array. */
  function Kept(entry: (string, ParamValue)): (r: seq<(string, string)>)
    ensures forall x :: x in r ==> x.0 == entry.0 && x.0 != "page"
  {
    if entry.0 == "page" then []
    else match entry.1
      case Missing => []
      case One(v) => if v == "" then [] else [(entry.0, v)]
      case Several(vs) => seq(|vs|, k requires 0 <= k < |vs| => (entry.0, vs[k]))
  }

  /** The preserved parameters, in the order of the entries. */
  function QueryPairs(entries: seq<(string, ParamValue)>): seq<(string, string)>
    decreases |entries|
  {
    if entries == [] then [] else Kept(entries[0]) + QueryPairs(entries[1..])
  }

  lemma {:induction false} QueryPairsSnoc(entries: seq<(string, ParamValue)>, x: (string, ParamValue))
    ensures QueryPairs(entries + [x]) == QueryPairs(entries) + Kept(x)
    decreases |entries|
  {
    if entries == [] {
      assert [x][1..] == [];
      assert entries + [x] == [x];
    } else {
      assert (entries + [x])[1..] == entries[1..] + [x];
      QueryPairsSnoc(entries[1..], x);
    }
  }

  /** No preserved pair is a `page` pair, and each comes from an entry with that key. */
  lemma {:induction false} QueryPairsSound(entries: seq<(string, ParamValue)>)
    ensures forall x :: x in QueryPairs(entries) ==>
      x.0 != "page" && exists i :: 0 <= i < |entries| && entries[i].0 == x.0 && x in Kept(entries[i])
    decreases |entries|
  {
    if entries != [] {
      QueryPairsSound(entries[1..]);
      forall x | x in QueryPairs(entries)
        ensures exists i :: 0 <= i < |entries| && entries[i].0 == x.0 && x in Kept(entries[i])
      {
        if x in Kept(entries[0]) {
        } else {
          assert x in QueryPairs(entries[1..]);
          var i :| 0 <= i < |entries[1..]| && entries[1..][i].0 == x.0 && x in Kept(entries[1..][i]);
          assert entries[i + 1] == entries[1..][i];
        }
      }
    }
  }

  /** Every non-empty string parameter other than `page` is preserved. */
  lemma {:induction false} QueryPairsComplete(entries: seq<(string, ParamValue)>, i: nat)
    requires i < |entries| && entries[i].0 != "page"
    requires entries[i].1.One? && entries[i].1.value != ""
    ensures (entries[i].0, entries[i].1.value) in QueryPairs(entries)
    decreases i
  {
    if i > 0 {
      assert entries[1..][i - 1] == entries[i];
      QueryPairsComplete(entries[1..], i - 1);
    }
  }

  /** `page.toString()`. */
  function IntToString(n: int): string {
    if n < 0 then "-" + NatToString(-n) else NatToString(n)
  }

  /** The query of the link to `page`: the preserved parameters, then `page` last. */
  function PageQuery(entries: seq<(string, ParamValue)>, page: int): (q: seq<(string, string)>)
    ensures |q| >= 1 && q[|q| - 1] == ("page", IntToString(page))
    ensures forall k :: 0 <= k < |q| - 1 ==> q[k].0 != "page"
  {
    QueryPairsSound(entries);
    var q := QueryPairs(entries) + [("page", IntToString(page))];
    assert forall k :: 0 <= k < |q| - 1 ==> q[k] == QueryPairs(entries)[k];
    q
  }

  /** `createPageUrl`'s loop: the entries in order, the array values one by one, then the
      page set last. */
  method CreatePageQuery(entries: seq<(string, ParamValue)>, page: int) returns (params: seq<(string, string)>)
    ensures params == PageQuery(entries, page)
  {
    params := [];
    var i := 0;
    while i < |entries|
      invariant 0 <= i <= |entries|
      invariant params == QueryPairs(entries[..i])
    {
      var (key, value) := entries[i];
      var before := params;
      if key != "page" {
        match value {
          case Missing =>
          case One(v) =>
            if v != "" {
              params := params + [(key, v)];
            }
          case Several(vs) =>
            var j := 0;
            while j < |vs|
              invariant 0 <= j <= |vs|
              invariant params == before + seq(j, k requires 0 <= k < j => (key, vs[k]))
            {
              params := params + [(key, vs[j])];
              j := j + 1;
            }
        }
      }
      assert params == before + Kept(entries[i]);
      QueryPairsSnoc(entries[..i], entries[i]);
      assert entries[..i + 1] == entries[..i] + [entries[i]];
      i := i + 1;
    }
    assert entries[..i] == entries;
    params := params + [("page", IntToString(page))];
  }

  /** `${basePath}?${params.toString()}`; `encode` stands for the
      `application/x-www-form-urlencoded` escaping of one name or value. */
  function PageUrl(basePath: string, entries: seq<(string, ParamValue)>, page: int,
                   encode: string -> string): string {
    basePath + "?" + Join(Map((x: (string, string)) => encode(x.0) + "=" + encode(x.1), PageQuery(entries, page)), "&")
  }

  /** One button of the number row. */
  datatype PageItem = EllipsisMark | PageLink(page: int, href: string, active: bool)

  /** The rendered bar: the previous and next links (none when the button is disabled),
      the number row, and the compact "Page c of t" text. */
  datatype Nav = Nav(previous: Option<string>, items: seq<PageItem>, next: Option<string>, summary: string)

  function ItemFor(current: int, basePath: string, entries: seq<(string, ParamValue)>,
                   encode: string -> string): int -> PageItem {
    (n: int) => if n == ELLIPSIS then EllipsisMark else PageLink(n, PageUrl(basePath, entries, n, encode), n == current)
  }

  /** `Pagination`: nothing for a single page; otherwise the bar. The previous button is
      live exactly when there is an earlier page and the next one exactly when there is a
      later page, each linking to that page. */
  function Render(current: int, total: int, basePath: string, entries: seq<(string, ParamValue)>,
                  encode: string -> string): (v: Option<Nav>)
    ensures v.None? <==> total <= 1
    ensures v.Some? ==> (v.value.previous.Some? <==> current > 1)
    ensures v.Some? ==> (v.value.next.Some? <==> current < total)
    ensures v.Some? && current > 1 ==> v.value.previous == Some(PageUrl(basePath, entries, current - 1, encode))
    ensures v.Some? && current < total ==> v.value.next == Some(PageUrl(basePath, entries, current + 1, encode))
    ensures v.Some? ==> |v.value.items| == |PageNumbers(current, total)|
    ensures v.Some? ==> forall k :: 0 <= k < |v.value.items| ==>
      var n := PageNumbers(current, total)[k];
      v.value.items[k] == if n == ELLIPSIS then EllipsisMark else PageLink(n, PageUrl(basePath, entries, n, encode), n == current)
  {
    if total <= 1 then None
    else Some(Nav(
      if current > 1 then Some(PageUrl(basePath, entries, current - 1, encode)) else None,
      Map(ItemFor(current, basePath, entries, encode), PageNumbers(current, total)),
      if current < total then Some(PageUrl(basePath, entries, current + 1, encode)) else None,
      "Page " + IntToString(current) + " of " + IntToString(total)))
  }

  /** On a real page, exactly one number button is highlighted, and it is the current
      page's. */
  lemma OneActiveItem(current: int, total: int, basePath: string, entries: seq<(string, ParamValue)>,
                      encode: string -> string)
    requires 1 <= current <= total && total > 1
    ensures var items := Render(current, total, basePath, entries, encode).value.items;
      exists k :: 0 <= k < |items| && items[k].PageLink? && items[k].active && items[k].page == current
    ensures var items := Render(current, total, basePath, entries, encode).value.items;
      forall i, j :: 0 <= i < j < |items| && items[i].PageLink? && items[j].PageLink? ==>
        !(items[i].active && items[j].active)
  {
    var r := PageNumbers(current, total);
    var items := Render(current, total, basePath, entries, encode).value.items;
    CurrentPageShown(current, total);
    PageNumbersWellFormed(current, total);
    var k :| 0 <= k < |r| && r[k] == current;
    assert items[k].PageLink? && items[k].active;
    forall i, j | 0 <= i < j < |items| && items[i].PageLink? && items[j].PageLink?
      ensures !(items[i].active && items[j].active)
    {
      assert items[i].page == r[i] && items[j].page == r[j];
      assert r[i] < r[j];
    }
  }
}
