/** Finite sums over maps and sequences, used to state conservation of money. */
module Sums {

  /** The sum of all values of `m`, whatever order its keys are visited in. */
  ghost function SumMap<K>(m: map<K, int>): int {
    if m == map[] then 0
    else
      var k :| k in m;
      m[k] + SumMap(m - {k})
  }

  /** `SumMap` does not depend on the key it picks. */
  lemma {:induction false} SumMapPick<K>(m: map<K, int>, k: K)
    requires k in m
    ensures SumMap(m) == m[k] + SumMap(m - {k})
    decreases |m|
  {
    var j :| j in m && SumMap(m) == m[j] + SumMap(m - {j});
    if j != k {
      SumMapPick(m - {j}, k);
      SumMapPick(m - {k}, j);
      assert m - {j} - {k} == m - {k} - {j};
    }
  }

  /** Overwriting one key moves the sum by the difference of its values. */
  lemma {:induction false} SumMapUpdate<K>(m: map<K, int>, k: K, v: int)
    ensures SumMap(m[k := v]) == SumMap(m) + v - (if k in m then m[k] else 0)
  {
    var m' := m[k := v];
    SumMapPick(m', k);
    assert m' - {k} == m - {k};
    if k in m {
      SumMapPick(m, k);
    } else {
      assert m - {k} == m;
    }
  }

  /** Moving an amount from one key to another leaves the sum as it was. */
  lemma SumMapTransfer<K>(m: map<K, int>, from: K, to: K, amount: int)
    requires from in m && to in m
    ensures var mid := m[from := m[from] - amount];
            SumMap(mid[to := mid[to] + amount]) == SumMap(m)
  {
    var mid := m[from := m[from] - amount];
    SumMapUpdate(m, from, m[from] - amount);
    SumMapUpdate(mid, to, mid[to] + amount);
  }

  /** One value of a map of non-negative values is at most their sum. */
  lemma {:induction false} SumMapBounds<K>(m: map<K, int>, k: K)
    requires k in m
    requires forall j :: j in m ==> 0 <= m[j]
    ensures m[k] <= SumMap(m)
    decreases |m|
  {
    SumMapPick(m, k);
    SumMapNonNegative(m - {k});
  }

  lemma {:induction false} SumMapNonNegative<K>(m: map<K, int>)
    requires forall j :: j in m ==> 0 <= m[j]
    ensures 0 <= SumMap(m)
    decreases |m|
  {
    if m != map[] {
      var k :| k in m;
      SumMapPick(m, k);
      SumMapNonNegative(m - {k});
    }
  }

  function SumSeq(s: seq<int>): int {
    if s == [] then 0 else SumSeq(s[..|s| - 1]) + s[|s| - 1]
  }

  lemma {:induction false} SumSeqUpdate(s: seq<int>, i: nat, v: int)
    requires i < |s|
    ensures SumSeq(s[i := v]) == SumSeq(s) - s[i] + v
    decreases |s|
  {
    var n := |s| - 1;
    if i == n {
      assert s[i := v][..n] == s[..n];
    } else {
      assert s[i := v][..n] == s[..n][i := v];
      SumSeqUpdate(s[..n], i, v);
    }
  }

  lemma {:induction false} SumSeqMonotone(s: seq<int>, t: seq<int>)
    requires |s| == |t|
    requires forall i :: 0 <= i < |s| ==> s[i] <= t[i]
    ensures SumSeq(s) <= SumSeq(t)
    decreases |s|
  {
    if s != [] {
      SumSeqMonotone(s[..|s| - 1], t[..|t| - 1]);
    }
  }

  lemma {:induction false} SumSeqZero(s: seq<int>)
    requires forall i :: 0 <= i < |s| ==> s[i] == 0
    ensures SumSeq(s) == 0
    decreases |s|
  {
    if s != [] {
      SumSeqZero(s[..|s| - 1]);
    }
  }

  /** In a duplicate-free list every element occurs once. */
  lemma {:induction false} CountDistinct<T>(s: seq<T>, x: T)
    requires forall i, j :: 0 <= i < j < |s| ==> s[i] != s[j]
    ensures multiset(s)[x] == if x in s then 1 else 0
    decreases |s|
  {
    if s != [] {
      var n := |s| - 1;
      assert s == s[..n] + [s[n]];
      CountDistinct(s[..n], x);
    }
  }
}
