/** Quantile scores and the composite RFM code (rfm-segmentatiton.py lines
    102-121). */
module Scoring {
  import opened Wrappers
  import opened Sequences
  import opened Records
  import opened Quantiles
  import opened Ranking

  /** A quantile score, one of the labels 1..5. */
  type Score = x: int | 1 <= x <= Bins witness 1

  /** The metric whose binning failed. */
  datatype Metric = Recency | Frequency | Monetary

  /** A scored customer: the `rfm` row with its three scores, `RFM_SCORE`
      and `RFM_SCORE_`. */
  datatype Segment = Segment(
    metrics: CustomerMetrics,
    recencyScore: Score,
    frequencyScore: Score,
    monetaryScore: Score,
    code: string,
    codeValue: int)

  /** Integer columns seen as floats by `qcut`. */
  function IntsToReals(v: seq<int>): (r: seq<real>)
    ensures |r| == |v|
    ensures forall i :: 0 <= i < |v| ==> r[i] == v[i] as real
  {
    seq(|v|, i requires 0 <= i < |v| => v[i] as real)
  }

  /** `rfm['recency']` as the floats `qcut` bins. */
  function RecencyColumn(ms: seq<CustomerMetrics>): seq<real> {
    seq(|ms|, i requires 0 <= i < |ms| => ms[i].recency as real)
  }

  function FrequencyColumn(ms: seq<CustomerMetrics>): seq<int> {
    seq(|ms|, i requires 0 <= i < |ms| => ms[i].frequency)
  }

  function MonetaryColumn(ms: seq<CustomerMetrics>): seq<real> {
    seq(|ms|, i requires 0 <= i < |ms| => ms[i].monetary)
  }

  /** `pd.qcut(rfm['recency'], 5, labels=[5, 4, 3, 2, 1])`: the most recent
      customers score 5. It fails exactly when the recency quantiles
      coincide, which includes every table of fewer than two customers. */
  function RecencyScores(ms: seq<CustomerMetrics>): (r: Option<seq<int>>)
    ensures r.None? <==> |ms| == 0 || !Distinct(Edges(Sort(RecencyColumn(ms))))
    ensures |ms| <= 1 ==> r.None?
    ensures r.Some? ==> Binned(RecencyColumn(ms), Descending, r.value)
    ensures r.Some? ==> |r.value| == |ms| && forall i :: 0 <= i < |ms| ==> 1 <= r.value[i] <= Bins
    ensures r.Some? ==> forall i, j :: 0 <= i < |ms| && 0 <= j < |ms| && ms[i].recency <= ms[j].recency ==>
                                       r.value[i] >= r.value[j]
  {
    var v := RecencyColumn(ms);
    assert |ms| == 1 ==> QCut(v, Descending).None? by {
      if |ms| == 1 {
        QCutFailsOnConstant(v, Descending);
      }
    }
    QCut(v, Descending)
  }

  /** Two or more customers whose recencies all differ are always scored. */
  lemma RecencyScoresSucceed(ms: seq<CustomerMetrics>)
    requires |ms| >= 2
    requires forall i, j :: 0 <= i < j < |ms| ==> ms[i].recency != ms[j].recency
    ensures RecencyScores(ms).Some?
  {
    QCutSucceedsWithoutRepeats(RecencyColumn(ms), Descending);
  }

  /** Row `i` comes no later than row `j` in frequency rank order: a lower
      frequency, or the same frequency at the same or an earlier position. */
  predicate FrequencyNoLater(ms: seq<CustomerMetrics>, i: int, j: int)
    requires 0 <= i < |ms| && 0 <= j < |ms|
  {
    ms[i].frequency < ms[j].frequency || (ms[i].frequency == ms[j].frequency && i <= j)
  }

  /** `pd.qcut(rfm['frequency'].rank(method="first"), 5, labels=[1, 2, 3, 4, 5])`:
      the ranks never repeat, so binning them fails only for fewer than two
      customers; equal frequencies are ordered by row position. */
  function FrequencyScores(ms: seq<CustomerMetrics>): (r: Option<seq<int>>)
    ensures r.Some? <==> |ms| >= 2
    ensures r.Some? ==> Binned(FrequencyRanks(ms), Ascending, r.value)
    ensures r.Some? ==> |r.value| == |ms| && forall i :: 0 <= i < |ms| ==> 1 <= r.value[i] <= Bins
    ensures r.Some? ==> forall i, j :: 0 <= i < |ms| && 0 <= j < |ms| && FrequencyNoLater(ms, i, j) ==>
                                       r.value[i] <= r.value[j]
  {
    var v := FrequencyRanks(ms);
    FrequencyRanksOrdered(ms);
    assert QCut(v, Ascending).Some? <==> |ms| >= 2 by {
      if |ms| >= 2 {
        QCutSucceedsWithoutRepeats(v, Ascending);
      } else if |ms| == 1 {
        QCutFailsOnConstant(v, Ascending);
      }
    }
    QCut(v, Ascending)
  }

  /** `rfm['frequency'].rank(method="first")`, as the floats `qcut` receives:
      whole numbers from 1 to the number of customers, no two alike. */
  function FrequencyRanks(ms: seq<CustomerMetrics>): (v: seq<real>)
    ensures |v| == |ms|
    ensures Distinct(v)
    ensures forall i :: 0 <= i < |ms| ==> 1.0 <= v[i] <= |ms| as real && v[i] == v[i].Floor as real
  {
    var freqs := FrequencyColumn(ms);
    var ranks := RankFirst(freqs);
    var v := IntsToReals(ranks);
    assert Distinct(v) by {
      RankFirstIsPermutation(freqs);
      forall i, j | 0 <= i < j < |v|
        ensures v[i] != v[j]
      {
        assert ranks[i] != ranks[j];
      }
    }
    v
  }

  /** Frequency ranks follow frequency, with ties in row order. */
  lemma FrequencyRanksOrdered(ms: seq<CustomerMetrics>)
    ensures forall i, j :: 0 <= i < |ms| && 0 <= j < |ms| && FrequencyNoLater(ms, i, j) ==>
                           FrequencyRanks(ms)[i] <= FrequencyRanks(ms)[j]
  {
    var freqs := FrequencyColumn(ms);
    var v := FrequencyRanks(ms);
    forall i, j | 0 <= i < |ms| && 0 <= j < |ms| && FrequencyNoLater(ms, i, j)
      ensures v[i] <= v[j]
    {
      if i != j {
        assert RanksBefore(freqs, i, j);
      }
    }
  }

  /** `pd.qcut(rfm['monetary'], 5, labels=[1, 2, 3, 4, 5])`. It fails exactly
      when the monetary quantiles coincide, which includes every table of
      fewer than two customers. */
  function MonetaryScores(ms: seq<CustomerMetrics>): (r: Option<seq<int>>)
    ensures r.None? <==> |ms| == 0 || !Distinct(Edges(Sort(MonetaryColumn(ms))))
    ensures |ms| <= 1 ==> r.None?
    ensures r.Some? ==> Binned(MonetaryColumn(ms), Ascending, r.value)
    ensures r.Some? ==> |r.value| == |ms| && forall i :: 0 <= i < |ms| ==> 1 <= r.value[i] <= Bins
    ensures r.Some? ==> forall i, j :: 0 <= i < |ms| && 0 <= j < |ms| && ms[i].monetary <= ms[j].monetary ==>
                                       r.value[i] <= r.value[j]
  {
    var v := MonetaryColumn(ms);
    assert |ms| == 1 ==> QCut(v, Ascending).None? by {
      if |ms| == 1 {
        QCutFailsOnConstant(v, Ascending);
      }
    }
    QCut(v, Ascending)
  }

  /** Two or more customers whose monetary values all differ are always scored. */
  lemma MonetaryScoresSucceed(ms: seq<CustomerMetrics>)
    requires |ms| >= 2
    requires forall i, j :: 0 <= i < j < |ms| ==> ms[i].monetary != ms[j].monetary
    ensures MonetaryScores(ms).Some?
  {
    QCutSucceedsWithoutRepeats(MonetaryColumn(ms), Ascending);
  }

  /** `str(d)` for a single decimal digit. */
  function DigitChar(d: int): char
    requires 0 <= d <= 9
  {
    (48 + d) as char
  }

  /** The digit a character stands for. */
  function DigitValue(c: char): int
    requires '0' <= c <= '9'
  {
    c as int - 48
  }

  predicate IsDigits(s: string) {
    forall k :: 0 <= k < |s| ==> '0' <= s[k] <= '9'
  }

  /** `10^k`. */
  function Pow10(k: nat): nat {
    if k == 0 then 1 else 10 * Pow10(k - 1)
  }

  /** `int(s)` for a string of decimal digits: a `k`-digit string reads
      below `10^k`. */
  function DecimalValue(s: string): (n: nat)
    requires IsDigits(s)
    ensures n < Pow10(|s|)
  {
    if |s| == 0 then 0
    else 10 * DecimalValue(s[..|s| - 1]) + DigitValue(s[|s| - 1])
  }

  /** `RFM_SCORE`: the recency, frequency and monetary scores as a
      three-character string of digits 1 to 5, in that order. */
  function Code(r: Score, f: Score, m: Score): (s: string)
    ensures |s| == 3
    ensures forall k :: 0 <= k < 3 ==> '1' <= s[k] <= '5'
  {
    [DigitChar(r), DigitChar(f), DigitChar(m)]
  }

  /** `RFM_SCORE_`: the code read as an integer, 100·r + 10·f + m, which
      lies in 111..555. */
  function CodeValue(r: Score, f: Score, m: Score): (n: int)
    ensures n == 100 * r + 10 * f + m
    ensures 111 <= n <= 555
  {
    var s := Code(r, f, m);
    var s1, s2 := [DigitChar(r)], [DigitChar(r), DigitChar(f)];
    assert s1[..0] == [];
    assert DecimalValue(s1) == r;
    assert s2[..1] == s1;
    assert DecimalValue(s2) == 10 * r + f;
    assert s[..2] == s2;
    DecimalValue(s)
  }

  /** Reads a code back into its three scores; None for any other string. */
  function ParseCode(s: string): Option<(Score, Score, Score)> {
    if |s| == 3 && '1' <= s[0] <= '5' && '1' <= s[1] <= '5' && '1' <= s[2] <= '5' then
      Some((DigitValue(s[0]), DigitValue(s[1]), DigitValue(s[2])))
    else None
  }

  /** Parsing a code recovers the three scores. */
  lemma ParseCodeRoundTrip(r: Score, f: Score, m: Score)
    ensures ParseCode(Code(r, f, m)) == Some((r, f, m))
  {
  }

  /** Every string that parses is the code of the scores it parses to. */
  lemma CodeRoundTrip(s: string)
    requires ParseCode(s).Some?
    ensures Code(ParseCode(s).value.0, ParseCode(s).value.1, ParseCode(s).value.2) == s
  {
  }

  /** The composite columns of a scored row agree with its scores: the code
      is three digits 1..5 that parse back to the scores, and its integer
      value is 100·r + 10·f + m. */
  predicate CodeAgrees(s: Segment) {
    && |s.code| == 3 && (forall k :: 0 <= k < 3 ==> '1' <= s.code[k] <= '5')
    && ParseCode(s.code) == Some((s.recencyScore, s.frequencyScore, s.monetaryScore))
    && s.codeValue == 100 * s.recencyScore + 10 * s.frequencyScore + s.monetaryScore
  }

  /** One scored row: the three scores, the code and its integer value. */
  function MakeSegment(m: CustomerMetrics, r: Score, f: Score, mon: Score): (s: Segment)
    ensures |s.code| == 3 && forall k :: 0 <= k < 3 ==> '1' <= s.code[k] <= '5'
    ensures ParseCode(s.code) == Some((r, f, mon))
    ensures s.codeValue == 100 * r + 10 * f + mon
  {
    ParseCodeRoundTrip(r, f, mon);
    Segment(m, r, f, mon, Code(r, f, mon), CodeValue(r, f, mon))
  }

  /** Lines 102-121 over the whole `rfm` table: the first metric whose edges
      coincide stops the computation; otherwise every row gets its scores,
      ordered as its metrics are. */
  function ScoreTable(ms: seq<CustomerMetrics>): (r: Result<seq<Segment>, Metric>)
    ensures r == Err(Recency) <==> RecencyScores(ms).None?
    ensures r != Err(Frequency)
    ensures r == Err(Monetary) <==> RecencyScores(ms).Some? && MonetaryScores(ms).None?
    ensures r.Ok? <==> RecencyScores(ms).Some? && MonetaryScores(ms).Some?
    ensures |ms| <= 1 ==> r == Err(Recency)
    ensures r.Ok? ==> |r.value| == |ms|
    ensures r.Ok? ==> forall i :: 0 <= i < |ms| ==>
      && r.value[i].metrics == ms[i]
      && r.value[i].recencyScore == RecencyScores(ms).value[i]
      && r.value[i].frequencyScore == FrequencyScores(ms).value[i]
      && r.value[i].monetaryScore == MonetaryScores(ms).value[i]
      && CodeAgrees(r.value[i])
    ensures r.Ok? ==> forall i, j :: 0 <= i < |ms| && 0 <= j < |ms| && ms[i].recency <= ms[j].recency ==>
                                     r.value[i].recencyScore >= r.value[j].recencyScore
    ensures r.Ok? ==> forall i, j :: 0 <= i < |ms| && 0 <= j < |ms| && FrequencyNoLater(ms, i, j) ==>
                                     r.value[i].frequencyScore <= r.value[j].frequencyScore
    ensures r.Ok? ==> forall i, j :: 0 <= i < |ms| && 0 <= j < |ms| && ms[i].monetary <= ms[j].monetary ==>
                                     r.value[i].monetaryScore <= r.value[j].monetaryScore
  {
    match RecencyScores(ms)
    case None => Err(Recency)
    case Some(rs) =>
      match FrequencyScores(ms)
      case None => Err(Frequency)
      case Some(fs) =>
        match MonetaryScores(ms)
        case None => Err(Monetary)
        case Some(mons) => Ok(Combine(ms, rs, fs, mons))
  }

  /** Attaches the three score columns to the table, row by row. */
  function Combine(ms: seq<CustomerMetrics>, rs: seq<int>, fs: seq<int>, mons: seq<int>): (segs: seq<Segment>)
    requires |rs| == |ms| && |fs| == |ms| && |mons| == |ms|
    requires forall i :: 0 <= i < |ms| ==> 1 <= rs[i] <= Bins && 1 <= fs[i] <= Bins && 1 <= mons[i] <= Bins
    ensures |segs| == |ms|
    ensures forall i :: 0 <= i < |ms| ==>
      && segs[i].metrics == ms[i]
      && segs[i].recencyScore == rs[i] && segs[i].frequencyScore == fs[i] && segs[i].monetaryScore == mons[i]
      && CodeAgrees(segs[i])
  {
    seq(|ms|, i requires 0 <= i < |ms| => MakeSegment(ms[i], rs[i], fs[i], mons[i]))
  }

  /** No two customers share a recency, and no two share a monetary value. */
  predicate Separated(ms: seq<CustomerMetrics>) {
    forall i, j :: 0 <= i < j < |ms| ==> ms[i].recency != ms[j].recency && ms[i].monetary != ms[j].monetary
  }

  /** A table of two or more customers, no two with the same recency or the
      same monetary value, is always scored. */
  lemma ScoreTableSucceeds(ms: seq<CustomerMetrics>)
    requires |ms| >= 2 && Separated(ms)
    ensures ScoreTable(ms).Ok?
  {
    RecencyScoresSucceed(ms);
    MonetaryScoresSucceed(ms);
  }
}
