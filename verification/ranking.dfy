/**
 * The ranking of destinations: `Array.from(destinations.entries())`, sorted
 * by count descending with `Array.prototype.sort` (stable, so equal counts
 * keep their order), then the first five.
 */
module Ranking {
  import OrderedMap

  const TopCount := 5

  /** Counts never increase along `s`. */
  predicate NonIncreasing<K>(s: seq<(K, nat)>) {
    forall i, j :: 0 <= i < j < |s| ==> s[i].1 >= s[j].1
  }

  /** The entries of `s` whose count is `c`, in their order in `s`. */
  function WithCount<K>(s: seq<(K, nat)>, c: nat): seq<(K, nat)> {
    if s == [] then []
    else (if s[0].1 == c then [s[0]] else []) + WithCount(s[1..], c)
  }

  /** Puts `x` in front of every entry of `t` whose count is not greater than its own. */
  function Insert<K>(x: (K, nat), t: seq<(K, nat)>): (r: seq<(K, nat)>)
    ensures multiset(r) == multiset(t) + multiset{x}
    ensures forall y :: y in r ==> y == x || y in t
  {
    if t == [] || t[0].1 <= x.1 then [x] + t
    else
      assert t == [t[0]] + t[1..];
      [t[0]] + Insert(x, t[1..])
  }

  /** `sort((a, b) => b[1] - a[1])`: a stable sort by count, largest first. */
  function SortByCountDesc<K>(s: seq<(K, nat)>): (r: seq<(K, nat)>)
    ensures multiset(r) == multiset(s)
    ensures NonIncreasing(r)
  {
    if s == [] then []
    else
      assert s == [s[0]] + s[1..];
      InsertKeepsOrder(s[0], SortByCountDesc(s[1..]));
      Insert(s[0], SortByCountDesc(s[1..]))
  }

  lemma {:induction false} InsertKeepsOrder<K>(x: (K, nat), t: seq<(K, nat)>)
    requires NonIncreasing(t)
    ensures NonIncreasing(Insert(x, t))
  {
    if t != [] && t[0].1 > x.1 {
      var rest := Insert(x, t[1..]);
      InsertKeepsOrder(x, t[1..]);
      var r := [t[0]] + rest;
      forall i, j | 0 <= i < j < |r| ensures r[i].1 >= r[j].1 {
        if i == 0 {
          assert r[j] in rest;
        }
      }
    }
  }

  /** `.slice(0, 5)`. */
  function Top<K>(s: seq<(K, nat)>): (r: seq<(K, nat)>)
    ensures |r| == if |s| < TopCount then |s| else TopCount
    ensures r == s[..|r|]
  {
    if |s| <= TopCount then s else s[..TopCount]
  }

  /** The ranked destinations before they are turned into `{place_id, count}` objects. */
  function Rank<K>(tally: seq<(K, nat)>): seq<(K, nat)> {
    Top(SortByCountDesc(tally))
  }

  lemma {:induction false} WithCountInsert<K>(x: (K, nat), t: seq<(K, nat)>, c: nat)
    requires NonIncreasing(t)
    ensures WithCount(Insert(x, t), c) == (if x.1 == c then [x] else []) + WithCount(t, c)
  {
    if t != [] && t[0].1 > x.1 {
      var rest := Insert(x, t[1..]);
      assert NonIncreasing(t[1..]) by {
        forall i, j | 0 <= i < j < |t| - 1 ensures t[1..][i].1 >= t[1..][j].1 {
          assert t[i + 1].1 >= t[j + 1].1;
        }
      }
      WithCountInsert(x, t[1..], c);
      assert ([t[0]] + rest)[1..] == rest;
      assert WithCount([t[0]] + rest, c) == (if t[0].1 == c then [t[0]] else []) + WithCount(rest, c);
    }
  }

  /** Sorting is stable: the entries of any one count keep their relative order. */
  lemma {:induction false} SortIsStable<K>(s: seq<(K, nat)>, c: nat)
    ensures WithCount(SortByCountDesc(s), c) == WithCount(s, c)
  {
    if s != [] {
      SortIsStable(s[1..], c);
      WithCountInsert(s[0], SortByCountDesc(s[1..]), c);
    }
  }

  /** Keeping a prefix keeps a prefix of the entries of each count. */
  lemma {:induction false} WithCountPrefix<K>(s: seq<(K, nat)>, n: nat, c: nat)
    requires n <= |s|
    ensures WithCount(s[..n], c) <= WithCount(s, c)
  {
    if n > 0 {
      assert s[..n][1..] == s[1..][..n - 1];
      WithCountPrefix(s[1..], n - 1, c);
    }
  }

  /** The ranking keeps min(5, |tally|) entries, largest counts first. */
  lemma RankShape<K>(tally: seq<(K, nat)>)
    ensures |Rank(tally)| == if |tally| < TopCount then |tally| else TopCount
    ensures NonIncreasing(Rank(tally))
  {
    var sorted := SortByCountDesc(tally);
    assert |sorted| == |multiset(sorted)| == |multiset(tally)| == |tally|;
    assert Rank(tally) == sorted[..|Rank(tally)|];
  }

  /** Every ranked entry is an entry of the tally. */
  lemma RankFromTally<K>(tally: seq<(K, nat)>)
    ensures forall p :: p in Rank(tally) ==> p in tally
  {
    var sorted := SortByCountDesc(tally);
    forall p | p in Rank(tally) ensures p in tally {
      assert p in sorted;
      assert p in multiset(sorted);
    }
  }

  /**
   * Among entries of equal count the ranking keeps the earliest ones in
   * tally order, in that order.
   */
  lemma RankIsStable<K>(tally: seq<(K, nat)>, c: nat)
    ensures WithCount(Rank(tally), c) <= WithCount(tally, c)
  {
    var sorted := SortByCountDesc(tally);
    WithCountPrefix(sorted, |Rank(tally)|, c);
    SortIsStable(tally, c);
  }

  /** Every entry left out has a count no greater than any entry kept. */
  lemma RankKeepsLargest<K>(tally: seq<(K, nat)>, p: (K, nat), q: (K, nat))
    requires p in tally && p !in Rank(tally) && q in Rank(tally)
    ensures p.1 <= q.1
  {
    var sorted := SortByCountDesc(tally);
    var r := Rank(tally);
    assert r == sorted[..|r|];
    assert p in multiset(sorted);
    var k :| 0 <= k < |sorted| && sorted[k] == p;
    var j :| 0 <= j < |r| && r[j] == q;
    assert k >= |r|;
  }

  /** An element found at two positions occurs at least twice. */
  lemma RepeatCounted<T>(s: seq<T>, i: nat, j: nat)
    requires i < j < |s|
    ensures s[i] == s[j] ==> multiset(s)[s[i]] >= 2
  {
    assert s == s[..j] + [s[j]] + s[j + 1..];
    assert s[i] in s[..j];
  }

  /** A sequence without repeats holds every element at most once. */
  lemma {:induction false} DistinctCounted<T>(s: seq<T>, x: T)
    requires OrderedMap.Distinct(s)
    ensures multiset(s)[x] <= 1
  {
    if s != [] {
      var t := s[1..];
      assert s == [s[0]] + t;
      assert OrderedMap.Distinct(t) by {
        forall i, j | 0 <= i < j < |t| ensures t[i] != t[j] {
          assert t[i] == s[i + 1] && t[j] == s[j + 1];
        }
      }
      DistinctCounted(t, x);
      assert s[0] !in t;
    }
  }

  /** A tally without repeated entries gives a ranking without repeated entries. */
  lemma RankDistinct<K>(tally: seq<(K, nat)>)
    requires OrderedMap.Distinct(tally)
    ensures OrderedMap.Distinct(Rank(tally))
  {
    var sorted := SortByCountDesc(tally);
    forall i, j | 0 <= i < j < |sorted| ensures sorted[i] != sorted[j] {
      DistinctCounted(tally, sorted[i]);
      RepeatCounted(sorted, i, j);
    }
    assert Rank(tally) == sorted[..|Rank(tally)|];
  }
}
