/** Sums over finite maps, independent of the order the entries are visited in. */
module Sums {

  /** The sum of all values of `m`. */
  ghost function Sum<K(!new)>(m: map<K, int>): int
    decreases |m|
  {
    if m == map[] then 0
    else
      var k :| k in m;
      m[k] + Sum(m - {k})
  }

  /** Any entry may be split off first. */
  lemma {:induction false} SumSplit<K(!new)>(m: map<K, int>, k: K)
    requires k in m
    ensures Sum(m) == m[k] + Sum(m - {k})
    decreases |m|
  {
    var c :| c in m && Sum(m) == m[c] + Sum(m - {c});
    if c != k {
      SumSplit(m - {c}, k);
      SumSplit(m - {k}, c);
      assert m - {c} - {k} == m - {k} - {c};
    }
  }

  /** Overwriting (or adding) one entry changes the sum by the difference. */
  lemma SumUpdate<K(!new)>(m: map<K, int>, k: K, v: int)
    ensures Sum(m[k := v]) + (if k in m then m[k] else 0) == Sum(m) + v
  {
    SumSplit(m[k := v], k);
    assert m[k := v] - {k} == m - {k};
    if k in m {
      SumSplit(m, k);
    } else {
      assert m - {k} == m;
    }
  }

  lemma SizeWithout<K>(s: set<K>, k: K)
    ensures |s| == |s - {k}| + if k in s then 1 else 0
  {
    if k !in s { assert s - {k} == s; }
  }

  /** Summing how often each key is picked, less how often it is struck, counts
      the picks less the strikes. */
  lemma {:induction false} SumCounts<K(!new)>(m: map<K, int>, picked: set<K>, added: set<K>, struck: set<K>)
    requires picked <= m.Keys && added <= m.Keys && struck <= m.Keys
    requires forall k :: k in m ==>
      m[k] == (if k in picked then 1 else 0) + (if k in added then 1 else 0) - (if k in struck then 1 else 0)
    ensures Sum(m) == |picked| + |added| - |struck|
    decreases |m|
  {
    if m == map[] {
      assert picked == {} && added == {} && struck == {};
    } else {
      var k :| k in m;
      SumSplit(m, k);
      SumCounts(m - {k}, picked - {k}, added - {k}, struck - {k});
      SizeWithout(picked, k);
      SizeWithout(added, k);
      SizeWithout(struck, k);
    }
  }
}
