/** The "group rows into a Map of lists" loop that several reads use: for each row in
    order, append a value to the list under the row's key, creating the list on first
    use. */
module Grouping {
  import opened Wrappers
  import opened Seqs

  /** The map the loop holds after reading `rows`. A row whose key is `None` is skipped. */
  function GroupBy<T, K(==), V>(rows: seq<T>, key: T -> Option<K>, val: T -> V): map<K, seq<V>>
    decreases |rows|
  {
    if rows == [] then map[]
    else
      var m := GroupBy(rows[..|rows| - 1], key, val);
      var r := rows[|rows| - 1];
      if key(r).None? then m
      else m[key(r).value := (if key(r).value in m then m[key(r).value] else []) + [val(r)]]
  }

  /** One more row: the map is unchanged for a row without a key, and otherwise the
      row's value is appended under its key. */
  lemma GroupByStep<T, K, V>(rows: seq<T>, key: T -> Option<K>, val: T -> V, i: nat)
    requires i < |rows|
    ensures key(rows[i]).None? ==> GroupBy(rows[..i + 1], key, val) == GroupBy(rows[..i], key, val)
    ensures key(rows[i]).Some? ==>
      (GroupBy(rows[..i + 1], key, val)
       == GroupBy(rows[..i], key, val)[key(rows[i]).value :=
            Lookup(GroupBy(rows[..i], key, val), key(rows[i]).value) + [val(rows[i])]])
  {
    assert rows[..i + 1][..i] == rows[..i];
  }

  function HasKey<T, K(==)>(key: T -> Option<K>, k: K): T -> bool {
    (r: T) => key(r) == Some(k)
  }

  /** The values of the rows filed under `k`, in row order. */
  function Group<T, K(==), V>(rows: seq<T>, key: T -> Option<K>, val: T -> V, k: K): seq<V> {
    Map(val, Filter(HasKey(key, k), rows))
  }

  /** One more row extends exactly the group of its own key. */
  lemma GroupStep<T, K, V>(rows: seq<T>, key: T -> Option<K>, val: T -> V, i: nat, k: K)
    requires i < |rows|
    ensures Group(rows[..i + 1], key, val, k) == Group(rows[..i], key, val, k)
      + (if key(rows[i]) == Some(k) then [val(rows[i])] else [])
  {
    var r := rows[i];
    assert rows[..i + 1] == rows[..i] + [r];
    FilterConcat(HasKey(key, k), rows[..i], [r]);
    MapConcat(val, Filter(HasKey(key, k), rows[..i]), Filter(HasKey(key, k), [r]));
  }

  /** The map holds under each key exactly that key's group, and has no key whose group
      is empty. */
  lemma {:induction false} GroupByIsGroup<T, K, V>(rows: seq<T>, key: T -> Option<K>, val: T -> V, k: K)
    ensures k in GroupBy(rows, key, val) ==> GroupBy(rows, key, val)[k] == Group(rows, key, val, k)
    ensures k !in GroupBy(rows, key, val) ==> Group(rows, key, val, k) == []
    decreases |rows|
  {
    if rows != [] {
      var n := |rows| - 1;
      GroupByIsGroup(rows[..n], key, val, k);
      GroupStep(rows, key, val, n, k);
      assert rows[..n + 1] == rows;
    }
  }

  /** The lookup the reads do after the loop: `map.get(k) ?? []`. */
  function Lookup<K(==), V>(m: map<K, seq<V>>, k: K): seq<V> {
    if k in m then m[k] else []
  }

  lemma LookupIsGroup<T, K, V>(rows: seq<T>, key: T -> Option<K>, val: T -> V, k: K)
    ensures Lookup(GroupBy(rows, key, val), k) == Group(rows, key, val, k)
  {
    GroupByIsGroup(rows, key, val, k);
  }
}
