/** Equal-population binning, `pd.qcut(x, 5, labels=...)`: bin edges are the
    0, 1/5, ..., 5/5 quantiles of the population, interpolated linearly
    between order statistics; a value falls in the right-closed bin whose
    upper edge is the first edge not below it, with the lowest value put in
    the first bin; coinciding edges are an error. */
module Quantiles {
  import opened Wrappers
  import opened Sequences

  /** Number of bins (the `q` argument of `qcut`). */
  const Bins: int := 5

  /** Inserts `x` into a sorted sequence. */
  function Insert(x: real, s: seq<real>): (r: seq<real>)
    requires Sorted(s)
    ensures |r| == |s| + 1
    ensures Sorted(r)
    ensures multiset(r) == multiset(s) + multiset{x}
  {
    if |s| == 0 then [x]
    else if x <= s[0] then
      SortedCons(x, s);
      [x] + s
    else
      var rest := Insert(x, s[1..]);
      assert s == [s[0]] + s[1..];
      assert multiset(s) == multiset{s[0]} + multiset(s[1..]);
      assert forall y :: y in rest ==> s[0] <= y by {
        forall y | y in rest
          ensures s[0] <= y
        {
          assert y in multiset(rest);
        }
      }
      SortedCons(s[0], rest);
      [s[0]] + rest
  }

  /** The population's values in ascending order. */
  function Sort(s: seq<real>): (r: seq<real>)
    ensures |r| == |s|
    ensures Sorted(r)
    ensures multiset(r) == multiset(s)
  {
    if |s| == 0 then []
    else
      assert s == [s[0]] + s[1..];
      Insert(s[0], Sort(s[1..]))
  }

  /** The value at virtual index `pos / 5` of a sorted sequence, linearly
      interpolated between neighbouring order statistics. Positions count in
      fifths of an index, one fifth per bin; the literal 5 (== Bins) keeps
      the division linear for the solver. */
  function Interpolate(s: seq<real>, pos: int): (v: real)
    requires |s| > 0 && 0 <= pos <= 5 * (|s| - 1)
  {
    var lo := pos / 5;
    var frac := pos % 5;
    if frac == 0 then s[lo]
    else s[lo] + (frac as real / 5.0) * (s[lo + 1] - s[lo])
  }

  /** The `k / Bins` quantile of a sorted population. */
  function QuantileAt(s: seq<real>, k: int): (v: real)
    requires |s| > 0 && 0 <= k <= Bins
    ensures k == 0 ==> v == s[0]
    ensures k == Bins ==> v == s[|s| - 1]
    ensures Sorted(s) ==> s[0] <= v <= s[|s| - 1]
  {
    MulBound(k, |s| - 1);
    var pos := k * (|s| - 1);
    assert Sorted(s) ==> s[0] <= Interpolate(s, pos) <= s[|s| - 1] by {
      if Sorted(s) {
        InterpolateBetween(s, pos);
        assert pos % 5 == 0 ==> Interpolate(s, pos) == s[pos / 5];
      }
    }
    Interpolate(s, pos)
  }

  lemma MulBound(k: int, n: int)
    requires 0 <= k <= Bins && 0 <= n
    ensures 0 <= k * n <= 5 * n
  {
  }

  /** The `Bins + 1` bin edges of a population: its minimum, the inner
      quantiles and its maximum. */
  function Edges(s: seq<real>): (e: seq<real>)
    requires |s| > 0
    ensures |e| == Bins + 1
    ensures Sorted(s) ==> e[0] == s[0] && e[Bins] == s[|s| - 1]
  {
    seq(Bins + 1, k requires 0 <= k <= Bins => QuantileAt(s, k))
  }

  lemma MulMonotone(i: int, j: int, m: int)
    requires i <= j && 0 <= m
    ensures i * m <= j * m
    ensures i < j && 0 < m ==> i * m < j * m
  {
  }

  /** A point a fraction `t` of the way from `a` to `b` lies between them. */
  lemma Between(a: real, b: real, t: real)
    requires a <= b && 0.0 < t < 1.0
    ensures a <= a + t * (b - a) <= b
    ensures a < b ==> a < a + t * (b - a) < b
  {
    var d := b - a;
    ProductSign(t, d);
    ProductSign(1.0 - t, d);
    assert d - t * d == (1.0 - t) * d;
  }

  lemma ProductSign(x: real, y: real)
    requires 0.0 < x && 0.0 <= y
    ensures 0.0 <= x * y
    ensures 0.0 < y ==> 0.0 < x * y
  {
  }

  /** Between neighbours, the interpolated value is the lower one plus a
      fraction strictly between 0 and 1 of the gap. */
  lemma InterpolateForm(s: seq<real>, pos: int) returns (t: real)
    requires |s| > 0 && 0 <= pos <= 5 * (|s| - 1) && pos % 5 != 0
    ensures pos / 5 + 1 < |s|
    ensures 0.0 < t < 1.0
    ensures Interpolate(s, pos) == s[pos / 5] + t * (s[pos / 5 + 1] - s[pos / 5])
  {
    t := (pos % 5) as real / 5.0;
  }

  /** An interpolated value lies between the two order statistics it
      interpolates, strictly so between distinct neighbours. */
  lemma InterpolateBetween(s: seq<real>, pos: int)
    requires |s| > 0 && 0 <= pos <= 5 * (|s| - 1)
    requires Sorted(s)
    ensures s[pos / 5] <= Interpolate(s, pos)
    ensures pos % 5 != 0 ==> pos / 5 + 1 < |s| && Interpolate(s, pos) <= s[pos / 5 + 1]
    ensures pos % 5 != 0 && StrictlyIncreasing(s) ==>
              s[pos / 5] < Interpolate(s, pos) < s[pos / 5 + 1]
  {
    var lo := pos / 5;
    if pos % 5 != 0 {
      var t := InterpolateForm(s, pos);
      assert s[lo] <= s[lo + 1];
      assert StrictlyIncreasing(s) ==> s[lo] < s[lo + 1];
      Between(s[lo], s[lo + 1], t);
    }
  }

  /** Scaling a non-negative difference by a larger fraction gives a larger result. */
  lemma ScaleMonotone(t: real, u: real, d: real)
    requires t <= u && 0.0 <= d
    ensures t * d <= u * d
    ensures t < u && 0.0 < d ==> t * d < u * d
  {
    if t < u {
      ProductSign(u - t, d);
      assert u * d - t * d == (u - t) * d;
    }
  }

  /** Interpolation is monotone in the virtual index on a sorted
      population, and strictly so when the population has no repeats. */
  lemma InterpolateMonotone(s: seq<real>, a: int, b: int)
    requires |s| > 0 && 0 <= a <= b <= 5 * (|s| - 1)
    requires Sorted(s)
    ensures Interpolate(s, a) <= Interpolate(s, b)
    ensures a < b && StrictlyIncreasing(s) ==> Interpolate(s, a) < Interpolate(s, b)
  {
    if a / 5 == b / 5 {
      InterpolateSameCell(s, a, b);
    } else {
      InterpolateBetween(s, a);
      InterpolateBetween(s, b);
      var loA, loB := a / 5, b / 5;
      assert loA < loB;
      assert s[loB] <= Interpolate(s, b);
      if a % 5 != 0 {
        assert loA + 1 <= loB;
        assert s[loA + 1] <= s[loB];
      } else {
        assert Interpolate(s, a) == s[loA];
        assert StrictlyIncreasing(s) ==> s[loA] < s[loB];
      }
    }
  }

  /** Monotonicity between two virtual indices of the same pair of neighbours. */
  lemma InterpolateSameCell(s: seq<real>, a: int, b: int)
    requires |s| > 0 && 0 <= a <= b <= 5 * (|s| - 1)
    requires Sorted(s) && a / 5 == b / 5
    ensures Interpolate(s, a) <= Interpolate(s, b)
    ensures a < b && StrictlyIncreasing(s) ==> Interpolate(s, a) < Interpolate(s, b)
  {
    var lo := a / 5;
    InterpolateBetween(s, b);
    if a % 5 != 0 {
      assert lo + 1 < |s|;
      var tA, tB := (a % 5) as real / 5.0, (b % 5) as real / 5.0;
      assert tA <= tB && (a < b ==> tA < tB);
      Lerp(s[lo], s[lo + 1], tA, tB);
    }
  }

  /** Moving further from `x` towards `y` never decreases the point reached. */
  lemma Lerp(x: real, y: real, t: real, u: real)
    requires x <= y && 0.0 <= t <= u
    ensures x + t * (y - x) <= x + u * (y - x)
    ensures t < u && x < y ==> x + t * (y - x) < x + u * (y - x)
  {
    ScaleMonotone(t, u, y - x);
  }

  /** The edges of a sorted population are sorted. */
  lemma EdgesSorted(s: seq<real>)
    requires |s| > 0 && Sorted(s)
    ensures Sorted(Edges(s))
  {
    var e := Edges(s);
    forall i, j | 0 <= i < j < |e|
      ensures e[i] <= e[j]
    {
      MulMonotone(i, j, |s| - 1);
      MulBound(j, |s| - 1);
      InterpolateMonotone(s, i * (|s| - 1), j * (|s| - 1));
    }
  }

  /** The edges of a population of at least two values without repeats are
      strictly increasing. */
  lemma EdgesStrictlyIncreasing(s: seq<real>)
    requires |s| >= 2 && StrictlyIncreasing(s)
    ensures StrictlyIncreasing(Edges(s))
  {
    var e := Edges(s);
    forall i, j | 0 <= i < j < |e|
      ensures e[i] < e[j]
    {
      MulMonotone(i, j, |s| - 1);
      MulBound(j, |s| - 1);
      InterpolateMonotone(s, i * (|s| - 1), j * (|s| - 1));
    }
  }

  /** `bins.searchsorted(x, side="left")`: how many edges lie below `x`. */
  function CountBelow(e: seq<real>, x: real): (c: nat)
    ensures c <= |e|
  {
    if |e| == 0 then 0
    else CountBelow(e[..|e| - 1], x) + (if e[|e| - 1] < x then 1 else 0)
  }

  /** A larger value has at least as many edges below it. */
  lemma {:induction false} CountBelowMonotone(e: seq<real>, x: real, y: real)
    requires x <= y
    ensures CountBelow(e, x) <= CountBelow(e, y)
  {
    if |e| > 0 {
      CountBelowMonotone(e[..|e| - 1], x, y);
    }
  }

  /** No edge lies below a value at or under all of them. */
  lemma {:induction false} CountBelowNone(e: seq<real>, x: real)
    requires forall k :: 0 <= k < |e| ==> x <= e[k]
    ensures CountBelow(e, x) == 0
  {
    if |e| > 0 {
      CountBelowNone(e[..|e| - 1], x);
    }
  }

  /** Every edge lies below a value above all of them. */
  lemma {:induction false} CountBelowAll(e: seq<real>, x: real)
    requires forall k :: 0 <= k < |e| ==> e[k] < x
    ensures CountBelow(e, x) == |e|
  {
    if |e| > 0 {
      CountBelowAll(e[..|e| - 1], x);
    }
  }

  /** On sorted edges, `searchsorted(side="left")` splits the edges into
      those below `x` and those at or above it. */
  lemma {:induction false} CountBelowSorted(e: seq<real>, x: real)
    requires Sorted(e)
    ensures forall k :: 0 <= k < CountBelow(e, x) ==> e[k] < x
    ensures forall k :: CountBelow(e, x) <= k < |e| ==> x <= e[k]
  {
    if |e| > 0 {
      var front := e[..|e| - 1];
      var last := e[|e| - 1];
      assert Sorted(front);
      CountBelowSorted(front, x);
      if last < x {
        CountBelowAll(front, x);
      }
    }
  }

  /** Value `x` lies in bin `b` (1-based) of the edges `e`: the right-closed
      interval `(e[b - 1], e[b]]`, the first bin also closed on the left
      (`include_lowest=True`). */
  predicate InBin(e: seq<real>, x: real, b: int)
    requires |e| == Bins + 1
  {
    1 <= b <= Bins && (if b == 1 then e[0] <= x <= e[1] else e[b - 1] < x <= e[b])
  }

  /** The 1-based bin of `x`: right-closed bins, with a value equal to the
      lowest edge put in the first bin (`include_lowest=True`). */
  function BinOf(e: seq<real>, x: real): (b: int)
    requires |e| == Bins + 1 && e[0] <= x <= e[Bins]
    ensures 1 <= b <= Bins
    ensures Sorted(e) ==> InBin(e, x, b)
  {
    var c := CountBelow(e, x);
    assert c <= Bins by {
      assert e[..|e| - 1][..|e| - 2] == e[..Bins - 1];
    }
    var b := if c == 0 then 1 else c;
    assert Sorted(e) ==> InBin(e, x, b) by {
      if Sorted(e) {
        CountBelowSorted(e, x);
      }
    }
    b
  }

  /** On sorted edges no value lies in two bins. */
  lemma InBinUnique(e: seq<real>, x: real, a: int, b: int)
    requires |e| == Bins + 1 && Sorted(e)
    requires InBin(e, x, a) && InBin(e, x, b)
    ensures a == b
  {
  }

  /** The label order of a `qcut` call. */
  datatype LabelOrder = Ascending | Descending

  /** `labels=[1, 2, 3, 4, 5]` or `labels=[5, 4, 3, 2, 1]` indexed by bin. */
  function Label(order: LabelOrder, bin: int): (l: int)
    ensures 1 <= bin <= Bins ==> 1 <= l <= Bins
  {
    match order
    case Ascending => bin
    case Descending => Bins + 1 - bin
  }

  /** Labelling a label gives the bin back: labels and bins are in one-to-one
      correspondence. */
  lemma LabelInvolution(order: LabelOrder, bin: int)
    ensures Label(order, Label(order, bin)) == bin
  {
  }

  /** `labels` are the `qcut` labels of the population `v`: one per value,
      each naming the bin of the sorted population's edges that holds it. */
  predicate Binned(v: seq<real>, order: LabelOrder, labels: seq<int>)
    requires |v| > 0
  {
    var e := Edges(Sort(v));
    |labels| == |v| && forall i :: 0 <= i < |v| ==> InBin(e, v[i], Label(order, labels[i]))
  }

  /** At most one labelling bins a population: the bin contract pins every label. */
  lemma BinnedUnique(v: seq<real>, order: LabelOrder, a: seq<int>, b: seq<int>)
    requires |v| > 0 && Binned(v, order, a) && Binned(v, order, b)
    ensures a == b
  {
    var e := Edges(Sort(v));
    EdgesSorted(Sort(v));
    forall i | 0 <= i < |v|
      ensures a[i] == b[i]
    {
      InBinUnique(e, v[i], Label(order, a[i]), Label(order, b[i]));
      LabelInvolution(order, a[i]);
      LabelInvolution(order, b[i]);
    }
  }

  /** Scores ordered as the labels are: non-decreasing with ascending labels,
      non-increasing with descending ones. */
  predicate LabelsOrdered(order: LabelOrder, a: int, b: int) {
    match order
    case Ascending => a <= b
    case Descending => a >= b
  }

  /** `pd.qcut(v, Bins, labels=...)`: one label per value, or None when the
      edges are not unique (`ValueError: Bin edges must be unique`), which
      includes the empty population. */
  function QCut(v: seq<real>, order: LabelOrder): (r: Option<seq<int>>)
    ensures r.None? <==> |v| == 0 || !Distinct(Edges(Sort(v)))
    ensures r.Some? ==> |r.value| == |v|
    ensures r.Some? ==> forall i :: 0 <= i < |v| ==> 1 <= r.value[i] <= Bins
    ensures r.Some? ==> forall i, j :: 0 <= i < |v| && 0 <= j < |v| && v[i] <= v[j] ==>
                                       LabelsOrdered(order, r.value[i], r.value[j])
    ensures r.Some? ==> Binned(v, order, r.value)
  {
    if |v| == 0 then None
    else
      var e := Edges(Sort(v));
      if !Distinct(e) then None
      else
        PopulationWithinEdges(v);
        var labels := seq(|v|, i requires 0 <= i < |v| => Label(order, BinOf(e, v[i])));
        BinsMonotone(v, e);
        EdgesSorted(Sort(v));
        assert forall i :: 0 <= i < |v| ==> Label(order, labels[i]) == BinOf(e, v[i]) by {
          forall i | 0 <= i < |v| {
            LabelInvolution(order, BinOf(e, v[i]));
          }
        }
        Some(labels)
  }

  /** Every value of the population lies between the outermost edges. */
  lemma PopulationWithinEdges(v: seq<real>)
    requires |v| > 0
    ensures forall i :: 0 <= i < |v| ==> Edges(Sort(v))[0] <= v[i] <= Edges(Sort(v))[Bins]
  {
    var s := Sort(v);
    var e := Edges(s);
    assert e[0] == s[0] && e[Bins] == s[|s| - 1];
    forall i | 0 <= i < |v|
      ensures s[0] <= v[i] <= s[|s| - 1]
    {
      SortKeepsValues(v, i);
      SortedBounds(s, v[i]);
    }
  }

  lemma SortKeepsValues(v: seq<real>, i: int)
    requires 0 <= i < |v|
    ensures v[i] in Sort(v)
  {
    assert v[i] in multiset(v);
    assert v[i] in multiset(Sort(v));
  }

  /** A member of a sorted sequence lies between its first and last elements. */
  lemma SortedBounds(s: seq<real>, x: real)
    requires Sorted(s) && x in s
    ensures s[0] <= x <= s[|s| - 1]
  {
    var k :| 0 <= k < |s| && s[k] == x;
    assert s[0] <= s[k] <= s[|s| - 1];
  }

  /** Binning is monotone in the value. */
  lemma BinsMonotone(v: seq<real>, e: seq<real>)
    requires |e| == Bins + 1
    requires forall i :: 0 <= i < |v| ==> e[0] <= v[i] <= e[Bins]
    ensures forall i, j :: 0 <= i < |v| && 0 <= j < |v| && v[i] <= v[j] ==> BinOf(e, v[i]) <= BinOf(e, v[j])
  {
    forall i, j | 0 <= i < |v| && 0 <= j < |v| && v[i] <= v[j]
      ensures BinOf(e, v[i]) <= BinOf(e, v[j])
    {
      CountBelowMonotone(e, v[i], v[j]);
    }
  }

  /** A population of at least two values without repeats can always be
      binned: its edges never coincide. */
  lemma QCutSucceedsWithoutRepeats(v: seq<real>, order: LabelOrder)
    requires |v| >= 2 && Distinct(v)
    ensures QCut(v, order).Some?
  {
    var s := Sort(v);
    assert |s| == |v| by {
      assert |multiset(s)| == |multiset(v)|;
    }
    DistinctPermutation(v, s);
    EdgesStrictlyIncreasing(s);
  }

  /** A population whose values are all equal cannot be binned: its lowest
      and highest edges coincide. */
  lemma QCutFailsOnConstant(v: seq<real>, order: LabelOrder)
    requires |v| >= 1 && forall i :: 0 <= i < |v| ==> v[i] == v[0]
    ensures QCut(v, order).None?
  {
    var s := Sort(v);
    assert |s| == |v| by {
      assert |multiset(s)| == |multiset(v)|;
    }
    forall k | 0 <= k < |s|
      ensures s[k] == v[0]
    {
      assert s[k] in multiset(v);
      assert s[k] in v;
    }
    var e := Edges(s);
    assert e[0] == e[Bins];
  }

  /** Two distinct values are enough for five bins: the edges interpolate
      between them (1.0, 1.2, ..., 2.0). */
  lemma TwoValuesAreBinned()
    ensures QCut([1.0, 2.0], Ascending) == Some([1, 5])
  {
    var v := [1.0, 2.0];
    SortOneTwo();
    EdgesOneTwo();
    var e := Edges(v);
    CountBelowNone(e, 1.0);
    CountBelowAll(e[..5], 2.0);
    assert CountBelow(e, 2.0) == 5;
    var r := QCut(v, Ascending);
    assert r.value[0] == BinOf(e, 1.0) == 1;
    assert r.value[1] == BinOf(e, 2.0) == 5;
    assert r.value == [1, 5];
  }

  lemma SortOneOneTwo()
    ensures Sort([1.0, 1.0, 2.0]) == [1.0, 1.0, 2.0]
  {
    assert [1.0, 1.0, 2.0][1..] == [1.0, 2.0];
    SortOneTwo();
  }

  lemma SortOneTwo()
    ensures Sort([1.0, 2.0]) == [1.0, 2.0]
  {
    assert [1.0, 2.0][1..] == [2.0];
    assert Sort([2.0]) == [2.0] by {
      assert [2.0][1..] == [];
    }
  }

  lemma EdgesOneTwo()
    ensures Edges([1.0, 2.0]) == [1.0, 1.2, 1.4, 1.6, 1.8, 2.0]
    ensures Distinct(Edges([1.0, 2.0]))
  {
    var v := [1.0, 2.0];
    var e := Edges(v);
    assert e[1] == Interpolate(v, 1);
    assert e[2] == Interpolate(v, 2);
    assert e[3] == Interpolate(v, 3);
    assert e[4] == Interpolate(v, 4);
  }

  /** Three values with a repeat fail: the lowest two edges coincide. */
  lemma RepeatedLowValueFails()
    ensures QCut([1.0, 1.0, 2.0], Ascending).None?
  {
    SortOneOneTwo();
    var s := Sort([1.0, 1.0, 2.0]);
    var e := Edges(s);
    assert e[0] == e[1] == 1.0;
  }
}
