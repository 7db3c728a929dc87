/** A stable sort by an integer key, the model of a SQL `ORDER BY` on a timestamp column. */
module Ordering {
  import opened Seqs

  predicate SortedBy<T>(s: seq<T>, key: T -> int) {
    forall i, j :: 0 <= i < j < |s| ==> key(s[i]) <= key(s[j])
  }

  /** Inserts `x` before the first element whose key is not smaller. */
  function Insert<T>(x: T, s: seq<T>, key: T -> int): (r: seq<T>)
    ensures |r| == |s| + 1
    ensures multiset(r) == multiset(s) + multiset{x}
  {
    if s == [] || key(x) <= key(s[0]) then [x] + s
    else
      assert s == [s[0]] + s[1..];
      [s[0]] + Insert(x, s[1..], key)
  }

  lemma {:induction false} InsertSorted<T>(x: T, s: seq<T>, key: T -> int)
    requires SortedBy(s, key)
    ensures SortedBy(Insert(x, s, key), key)
  {
    if s == [] || key(x) <= key(s[0]) {
      PrependSorted(x, s, key);
    } else {
      var rest := Insert(x, s[1..], key);
      InsertSorted(x, s[1..], key);
      assert s == [s[0]] + s[1..];
      forall y | y in rest ensures key(s[0]) <= key(y) {
        assert y in multiset(rest);
        if y != x {
          assert y in multiset(s[1..]);
          var k :| 0 <= k < |s[1..]| && s[1..][k] == y;
          assert s[k + 1] == y;
        }
      }
      PrependSorted(s[0], rest, key);
    }
  }

  lemma PrependSorted<T>(h: T, s: seq<T>, key: T -> int)
    requires SortedBy(s, key)
    requires forall y :: y in s ==> key(h) <= key(y)
    ensures SortedBy([h] + s, key)
  {
    var r := [h] + s;
    forall i, j | 0 <= i < j < |r| ensures key(r[i]) <= key(r[j]) {
      assert r[j] == s[j - 1];
      if i > 0 {
        assert r[i] == s[i - 1];
      } else {
        assert s[j - 1] in s;
      }
    }
  }

  /** The elements of `s` ordered by ascending `key`. */
  function SortBy<T>(s: seq<T>, key: T -> int): (r: seq<T>)
    ensures multiset(r) == multiset(s)
    ensures |r| == |s|
    ensures SortedBy(r, key)
  {
    if s == [] then []
    else
      assert s == [s[0]] + s[1..];
      InsertSorted(s[0], SortBy(s[1..], key), key);
      Insert(s[0], SortBy(s[1..], key), key)
  }

  lemma {:induction false} FilterKeepsSorted<T>(p: T -> bool, s: seq<T>, key: T -> int)
    requires SortedBy(s, key)
    ensures SortedBy(Filter(p, s), key)
  {
    if s != [] {
      FilterKeepsSorted(p, s[1..], key);
      var rest := Filter(p, s[1..]);
      assert forall y :: y in rest ==> key(s[0]) <= key(y) by {
        forall y | y in rest ensures key(s[0]) <= key(y) {
          var k :| 0 <= k < |s[1..]| && s[1..][k] == y;
          assert s[k + 1] == y;
        }
      }
      if p(s[0]) {
        PrependSorted(s[0], rest, key);
      }
    }
  }

  lemma MemberOfSorted<T>(s: seq<T>, key: T -> int, x: T)
    ensures x in SortBy(s, key) <==> x in s
  {
    assert x in SortBy(s, key) <==> x in multiset(SortBy(s, key));
    assert x in s <==> x in multiset(s);
  }

  /** Mapping an insertion adds the image of the inserted element. */
  lemma {:induction false} MapInsert<T, U>(f: T -> U, x: T, s: seq<T>, key: T -> int)
    ensures multiset(Map(f, Insert(x, s, key))) == multiset(Map(f, s)) + multiset{f(x)}
  {
    InsertCases(x, s, key);
    if s == [] || key(x) <= key(s[0]) {
      MapCons(f, x, s);
    } else {
      MapInsert(f, x, s[1..], key);
      MapCons(f, s[0], Insert(x, s[1..], key));
      MapCons(f, s[0], s[1..]);
    }
  }

  lemma InsertCases<T>(x: T, s: seq<T>, key: T -> int)
    ensures s == [] || key(x) <= key(s[0]) ==> Insert(x, s, key) == [x] + s
    ensures s != [] && key(x) > key(s[0]) ==>
      Insert(x, s, key) == [s[0]] + Insert(x, s[1..], key) && [s[0]] + s[1..] == s
  {
  }

  lemma MapCons<T, U>(f: T -> U, x: T, s: seq<T>)
    ensures multiset(Map(f, [x] + s)) == multiset{f(x)} + multiset(Map(f, s))
  {
    assert ([x] + s)[1..] == s;
    assert Map(f, [x] + s) == [f(x)] + Map(f, s);
  }

  /** Sorting before a projection keeps every projected value, as often as before. */
  lemma {:induction false} MapSortBy<T, U>(f: T -> U, s: seq<T>, key: T -> int)
    ensures multiset(Map(f, SortBy(s, key))) == multiset(Map(f, s))
  {
    if s != [] {
      var tail := SortBy(s[1..], key);
      SortByCons(s, key);
      MapSortBy(f, s[1..], key);
      MapInsert(f, s[0], tail, key);
      MapCons(f, s[0], s[1..]);
    }
  }

  lemma SortByCons<T>(s: seq<T>, key: T -> int)
    requires s != []
    ensures SortBy(s, key) == Insert(s[0], SortBy(s[1..], key), key)
    ensures [s[0]] + s[1..] == s
  {
  }
}
