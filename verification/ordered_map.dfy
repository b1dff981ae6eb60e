/**
 * A JavaScript `Map`: key/value entries kept in insertion order, each key at
 * most once. `set` on a key already present replaces its value in place;
 * `set` on a new key appends an entry at the end.
 */
module OrderedMap {
  import opened Options

  /** The keys of the entries, in order. */
  function Keys<K, V>(m: seq<(K, V)>): seq<K> {
    if m == [] then [] else [m[0].0] + Keys(m[1..])
  }

  lemma {:induction false} KeysLength<K, V>(m: seq<(K, V)>)
    ensures |Keys(m)| == |m|
  {
    if m != [] {
      KeysLength(m[1..]);
    }
  }

  predicate Distinct<T(==)>(s: seq<T>) {
    forall i, j :: 0 <= i < j < |s| ==> s[i] != s[j]
  }

  /** `m.get(k)`: the value of the first entry for `k`, if any. */
  function Get<K(==), V>(m: seq<(K, V)>, k: K): Option<V> {
    if m == [] then None
    else if m[0].0 == k then Some(m[0].1)
    else Get(m[1..], k)
  }

  /** `m.set(k, v)`. */
  function Set<K(==), V>(m: seq<(K, V)>, k: K, v: V): seq<(K, V)> {
    if m == [] then [(k, v)]
    else if m[0].0 == k then [(k, v)] + m[1..]
    else [m[0]] + Set(m[1..], k, v)
  }

  /** A lookup hits exactly the keys of the map. */
  lemma {:induction false} GetFindsKeys<K, V>(m: seq<(K, V)>, k: K)
    ensures Get(m, k).Some? <==> k in Keys(m)
  {
    if m != [] {
      GetFindsKeys(m[1..], k);
    }
  }

  /**
   * `set` replaces the value of a present key in place and appends a new
   * key at the end; afterwards `get(k)` is `v` and every other key reads as
   * before.
   */
  lemma {:induction false} SetMeaning<K, V>(m: seq<(K, V)>, k: K, v: V)
    ensures Keys(Set(m, k, v)) == if k in Keys(m) then Keys(m) else Keys(m) + [k]
    ensures Get(Set(m, k, v), k) == Some(v)
    ensures forall k' :: k' != k ==> Get(Set(m, k, v), k') == Get(m, k')
  {
    if m != [] && m[0].0 != k {
      SetMeaning(m[1..], k, v);
      assert Keys(m) == [m[0].0] + Keys(m[1..]);
    }
  }

  /** `set` keeps the keys distinct. */
  lemma SetKeepsDistinct<K, V>(m: seq<(K, V)>, k: K, v: V)
    requires Distinct(Keys(m))
    ensures Distinct(Keys(Set(m, k, v)))
  {
    SetMeaning(m, k, v);
  }

  lemma {:induction false} KeysAt<K, V>(m: seq<(K, V)>, i: nat)
    requires i < |m|
    ensures |Keys(m)| == |m| && Keys(m)[i] == m[i].0
  {
    KeysLength(m);
    if i > 0 {
      KeysAt(m[1..], i - 1);
    }
  }

  /** In a map whose keys are distinct, looking up the key of entry `i` finds entry `i`. */
  lemma {:induction false} GetAt<K, V>(m: seq<(K, V)>, i: nat)
    requires Distinct(Keys(m)) && i < |m|
    ensures Get(m, m[i].0) == Some(m[i].1)
  {
    if i > 0 {
      KeysAt(m, 0);
      KeysAt(m, i);
      assert m[0].0 != m[i].0;
      assert Distinct(Keys(m[1..])) by {
        assert Keys(m[1..]) == Keys(m)[1..];
      }
      GetAt(m[1..], i - 1);
    }
  }

  /** A hit is an entry of the map. */
  lemma {:induction false} GetIsEntry<K, V>(m: seq<(K, V)>, k: K)
    requires Get(m, k).Some?
    ensures (k, Get(m, k).value) in m
  {
    if m[0].0 != k {
      GetIsEntry(m[1..], k);
    }
  }
}
