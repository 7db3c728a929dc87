/** Order-preserving filters and maps over the in-memory tables. */
module Seqs {
  import opened Wrappers

  /** The elements of `s` that satisfy `p`, in their original order
      (a SQL `WHERE` over a table, or JavaScript's `Array.prototype.filter`). */
  function Filter<T>(p: T -> bool, s: seq<T>): (r: seq<T>)
    ensures |r| <= |s|
    ensures forall x :: x in r ==> x in s && p(x)
    ensures forall x :: x in s && p(x) ==> x in r
  {
    if s == [] then []
    else if p(s[0]) then [s[0]] + Filter(p, s[1..])
    else Filter(p, s[1..])
  }

  /** `f` applied to every element, in order (JavaScript's `Array.prototype.map`). */
  function Map<A, B>(f: A -> B, s: seq<A>): (r: seq<B>)
    ensures |r| == |s|
    ensures forall i :: 0 <= i < |s| ==> r[i] == f(s[i])
  {
    if s == [] then [] else [f(s[0])] + Map(f, s[1..])
  }

  /** The number of elements that satisfy `p` (a SQL `count(*)` with a `WHERE`). */
  function Count<T>(p: T -> bool, s: seq<T>): nat {
    |Filter(p, s)|
  }

  /** The first element that satisfies `p`, if any (`rows[0]` of a filtered select,
      or `Array.prototype.find`). */
  function First<T>(p: T -> bool, s: seq<T>): (r: Option<T>)
    ensures r.Some? ==> r.value in s && p(r.value)
    ensures r.None? <==> forall x :: x in s ==> !p(x)
    ensures r.Some? ==> r == Some(Filter(p, s)[0])
  {
    if s == [] then None
    else if p(s[0]) then Some(s[0])
    else First(p, s[1..])
  }

  /** At most the first `n` elements (a SQL `LIMIT`). */
  function Take<T>(s: seq<T>, n: nat): (r: seq<T>)
    ensures |r| == if n <= |s| then n else |s|
    ensures forall i :: 0 <= i < |r| ==> r[i] == s[i]
  {
    if n <= |s| then s[..n] else s
  }

  /** The elements from position `n` on, or none when `n` is past the end (a SQL `OFFSET`). */
  function Drop<T>(s: seq<T>, n: nat): (r: seq<T>)
    ensures |r| == if n <= |s| then |s| - n else 0
    ensures forall i :: 0 <= i < |r| ==> r[i] == s[n + i]
  {
    if n <= |s| then s[n..] else []
  }

  /** `f` applied to the elements that satisfy `p`, the others kept (a SQL `UPDATE ... WHERE`). */
  function UpdateWhere<T>(p: T -> bool, f: T -> T, s: seq<T>): (r: seq<T>)
    ensures |r| == |s|
    ensures forall i :: 0 <= i < |s| ==> r[i] == if p(s[i]) then f(s[i]) else s[i]
  {
    if s == [] then [] else [if p(s[0]) then f(s[0]) else s[0]] + UpdateWhere(p, f, s[1..])
  }

  /** After an update, the first match of the same selector is the updated first match,
      provided the update keeps the selector true. */
  lemma {:induction false} FirstUpdated<T>(p: T -> bool, f: T -> T, s: seq<T>)
    requires First(p, s).Some? && p(f(First(p, s).value))
    ensures First(p, UpdateWhere(p, f, s)) == Some(f(First(p, s).value))
  {
    if !p(s[0]) {
      assert UpdateWhere(p, f, s)[1..] == UpdateWhere(p, f, s[1..]);
      FirstUpdated(p, f, s[1..]);
    }
  }

  /** An appended element no earlier element matches is the first match. */
  lemma {:induction false} FirstAppended<T>(p: T -> bool, s: seq<T>, x: T)
    requires p(x) && forall y :: y in s ==> !p(y)
    ensures First(p, s + [x]) == Some(x)
  {
    if s == [] {
      assert s + [x] == [x];
    } else {
      assert (s + [x])[1..] == s[1..] + [x];
      FirstAppended(p, s[1..], x);
    }
  }

  lemma {:induction false} FilterConcat<T>(p: T -> bool, a: seq<T>, b: seq<T>)
    ensures Filter(p, a + b) == Filter(p, a) + Filter(p, b)
  {
    if a == [] {
      assert a + b == b;
    } else {
      assert (a + b)[1..] == a[1..] + b;
      FilterConcat(p, a[1..], b);
    }
  }

  lemma {:induction false} FilterAll<T>(p: T -> bool, s: seq<T>)
    requires forall x :: x in s ==> p(x)
    ensures Filter(p, s) == s
  {
    if s != [] {
      FilterAll(p, s[1..]);
    }
  }

  lemma {:induction false} FilterNone<T>(p: T -> bool, s: seq<T>)
    requires forall x :: x in s ==> !p(x)
    ensures Filter(p, s) == []
  {
    if s != [] {
      FilterNone(p, s[1..]);
    }
  }

  lemma {:induction false} MapConcat<A, B>(f: A -> B, a: seq<A>, b: seq<A>)
    ensures Map(f, a + b) == Map(f, a) + Map(f, b)
  {
    if a == [] {
      assert a + b == b;
    } else {
      assert (a + b)[1..] == a[1..] + b;
      MapConcat(f, a[1..], b);
    }
  }

  /** Filtering by `q` after `p` is filtering by `q` alone when `q` implies `p`. */
  lemma {:induction false} FilterNarrower<T>(p: T -> bool, q: T -> bool, s: seq<T>)
    requires forall x :: x in s && q(x) ==> p(x)
    ensures Filter(q, Filter(p, s)) == Filter(q, s)
  {
    if s != [] {
      FilterNarrower(p, q, s[1..]);
    }
  }

  /** Two tests that agree on every element select the same elements. */
  lemma {:induction false} FilterSame<T>(p: T -> bool, q: T -> bool, s: seq<T>)
    requires forall x :: x in s ==> p(x) == q(x)
    ensures Filter(p, s) == Filter(q, s)
  {
    if s != [] {
      FilterSame(p, q, s[1..]);
    }
  }
}
