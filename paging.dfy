/** The page arithmetic shared by the paged reads: the clamps of the asked page and page
    size, `LIMIT`/`OFFSET` over the ordered rows, and the page count. */
module Paging {
  import opened Wrappers
  import opened Seqs
  import opened Ordering

  /** The order a paged read lists its rows in, by creation time. */
  datatype Sort = Newest | Oldest

  /** `Math.max(1, page ?? 1)`. */
  function ClampPage(page: Option<int>): (n: nat)
    ensures n >= 1
    ensures page.None? ==> n == 1
    ensures page.Some? && page.value >= 1 ==> n == page.value
    ensures page.Some? && page.value < 1 ==> n == 1
  {
    if page.GetOr(1) < 1 then 1 else page.GetOr(1)
  }

  /** `Math.min(100, Math.max(1, pageSize ?? default))`. */
  function ClampPageSize(pageSize: Option<int>, default: nat): (n: nat)
    ensures 1 <= n <= 100
    ensures pageSize.None? && 1 <= default <= 100 ==> n == default
    ensures pageSize.Some? && 1 <= pageSize.value <= 100 ==> n == pageSize.value
    ensures pageSize.Some? && pageSize.value < 1 ==> n == 1
    ensures pageSize.Some? && pageSize.value > 100 ==> n == 100
  {
    var n := pageSize.GetOr(default);
    if n < 1 then 1 else if n > 100 then 100 else n
  }

  /** `Math.ceil(total / pageSize)`: the fewest pages of `size` that hold `total` items. */
  function CeilDiv(total: nat, size: nat): (q: nat)
    requires size >= 1
    ensures q * size >= total
    ensures q > 0 ==> (q - 1) * size < total
    ensures q == 0 <==> total == 0
  {
    var q := (total + size - 1) / size;
    assert q * size <= total + size - 1 < q * size + size;
    q
  }

  /** `OFFSET (page - 1) * pageSize`. */
  function Offset(page: nat, size: nat): (n: nat)
    requires page >= 1
  {
    (page - 1) * size
  }

  /** `LIMIT size OFFSET (page - 1) * size` over the ordered rows. */
  function Window<T>(sorted: seq<T>, page: nat, size: nat): (w: seq<T>)
    requires page >= 1
    ensures |w| <= size
    ensures |w| > 0 ==> Offset(page, size) + |w| <= |sorted|
    ensures forall i :: 0 <= i < |w| ==> w[i] == sorted[Offset(page, size) + i]
  {
    Take(Drop(sorted, Offset(page, size)), size)
  }

  /** The window of a sorted sequence is sorted. */
  lemma WindowSorted<T>(sorted: seq<T>, key: T -> int, page: nat, size: nat)
    requires page >= 1 && SortedBy(sorted, key)
    ensures SortedBy(Window(sorted, page, size), key)
  {
    var w := Window(sorted, page, size);
    var off := Offset(page, size);
    forall i, j | 0 <= i < j < |w| ensures key(w[i]) <= key(w[j]) {
      assert w[i] == sorted[off + i] && w[j] == sorted[off + j];
    }
  }
}
