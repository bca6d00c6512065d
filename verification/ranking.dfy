/** `Series.rank(method="first")`: ranks 1..n in ascending value order,
    ties broken by position (the value seen first gets the lower rank). */
module Ranking {
  import opened Sequences

  /** Row `k` precedes row `i` in rank order: a smaller value, or the same
      value at an earlier position. */
  predicate RanksBefore(v: seq<int>, k: int, i: int)
    requires 0 <= k < |v| && 0 <= i < |v|
  {
    v[k] < v[i] || (v[k] == v[i] && k < i)
  }

  /** The rows that precede row `i`. */
  function Ahead(v: seq<int>, i: int): set<int>
    requires 0 <= i < |v|
  {
    set k | 0 <= k < |v| && RanksBefore(v, k, i)
  }

  /** The positions 0..n-1. */
  function Positions(n: nat): (p: set<int>)
    ensures forall k :: k in p <==> 0 <= k < n
  {
    if n == 0 then {} else Positions(n - 1) + {n - 1}
  }

  lemma {:induction false} PositionsCard(n: nat)
    ensures |Positions(n)| == n
  {
    if n > 0 {
      PositionsCard(n - 1);
      assert n - 1 !in Positions(n - 1);
    }
  }

  lemma SubsetCard(a: set<int>, b: set<int>)
    requires a <= b
    ensures |a| <= |b|
  {
    assert b == a + (b - a);
  }

  /** Rank of row `i`: one more than the number of rows ahead of it. */
  function RankOf(v: seq<int>, i: int): (r: int)
    requires 0 <= i < |v|
    ensures 1 <= r <= |v|
  {
    assert Ahead(v, i) <= Positions(|v|) - {i};
    SubsetCard(Ahead(v, i), Positions(|v|) - {i});
    PositionsCard(|v|);
    |Ahead(v, i)| + 1
  }

  /** Rank order is respected: a row that precedes another gets a smaller rank. */
  lemma RankOfOrdered(v: seq<int>, i: int, j: int)
    requires 0 <= i < |v| && 0 <= j < |v| && RanksBefore(v, i, j)
    ensures RankOf(v, i) < RankOf(v, j)
  {
    assert Ahead(v, i) + {i} <= Ahead(v, j);
    assert i !in Ahead(v, i);
    SubsetCard(Ahead(v, i) + {i}, Ahead(v, j));
  }

  /** `v.rank(method="first")`. */
  function RankFirst(v: seq<int>): (r: seq<int>)
    ensures |r| == |v|
    ensures forall i :: 0 <= i < |v| ==> 1 <= r[i] <= |v|
    ensures forall i, j :: 0 <= i < |v| && 0 <= j < |v| && RanksBefore(v, i, j) ==> r[i] < r[j]
  {
    var r := seq(|v|, i requires 0 <= i < |v| => RankOf(v, i));
    forall i, j | 0 <= i < |v| && 0 <= j < |v| && RanksBefore(v, i, j)
      ensures r[i] < r[j]
    {
      RankOfOrdered(v, i, j);
    }
    r
  }

  lemma SubsetEqualCard(a: set<int>, b: set<int>)
    requires a <= b && |a| == |b|
    ensures a == b
  {
    assert b == a + (b - a);
    assert |b - a| == 0;
  }

  /** The ranks are a permutation of 1..n: no two rows share a rank and
      every rank from 1 to n is given to some row. */
  lemma RankFirstIsPermutation(v: seq<int>)
    ensures Distinct(RankFirst(v))
    ensures forall k :: 1 <= k <= |v| ==> k in RankFirst(v)
  {
    var r := RankFirst(v);
    var n := |v|;
    forall i, j | 0 <= i < j < n
      ensures r[i] != r[j]
    {
      if v[i] <= v[j] {
        assert RanksBefore(v, i, j);
      } else {
        assert RanksBefore(v, j, i);
      }
    }
    var shifted := seq(n, i requires 0 <= i < n => r[i] - 1);
    assert Distinct(shifted);
    DistinctCard(shifted);
    PositionsCard(n);
    var image := set x | x in shifted;
    assert image <= Positions(n);
    SubsetEqualCard(image, Positions(n));
    forall k | 1 <= k <= n
      ensures k in r
    {
      assert k - 1 in image;
      var i :| 0 <= i < n && shifted[i] == k - 1;
      assert r[i] == k;
    }
  }
}
