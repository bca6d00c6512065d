/** The whole batch computation of rfm-segmentatiton.py, from the loaded
    sheet to the scored `rfm` table. */
module Pipeline {
  import opened Wrappers
  import opened Records
  import opened Cleaning
  import opened Aggregation
  import opened Scoring

  /** Why a run produces no table. */
  datatype PipelineError =
    | NoTransactions              // nothing survives cleaning, so there is no latest invoice date
    | BinEdgesNotUnique(metric: Metric)   // `qcut` found coinciding quantile edges

  /** The `rfm` table (lines 66-83) of a non-empty cleaned table. */
  function RfmTable(lines: seq<Line>): (ms: seq<CustomerMetrics>)
    requires |lines| > 0
    ensures forall m :: m in ms ==> m.recency >= 1 && m.frequency >= 1 && m.monetary > 0.0
  {
    var ref := ReferenceDate(lines);
    var groups := SelectPositive(Aggregate(lines, ref));
    var ms := ToMetrics(groups);
    assert forall m :: m in ms ==> m.recency >= 1 && m.frequency >= 1 && m.monetary > 0.0 by {
      forall m | m in ms
        ensures m.recency >= 1 && m.frequency >= 1 && m.monetary > 0.0
      {
        var i :| 0 <= i < |ms| && ms[i] == m;
        assert groups[i] in groups;
        AggregateRow(lines, ref, groups[i]);
        RecencyAtLeastOneDay(lines, groups[i].customerId);
      }
    }
    ms
  }

  /** A scored row satisfies the pipeline's output guarantees. */
  predicate WellScored(s: Segment) {
    && s.metrics.recency >= 1 && s.metrics.frequency >= 1 && s.metrics.monetary > 0.0
    && CodeAgrees(s)
  }

  /** Every row of a successfully scored `rfm` table is well scored. */
  lemma ScoredRowsWellScored(lines: seq<Line>)
    requires |lines| > 0 && ScoreTable(RfmTable(lines)).Ok?
    ensures |ScoreTable(RfmTable(lines)).value| >= 2
    ensures forall s :: s in ScoreTable(RfmTable(lines)).value ==> WellScored(s)
  {
    var ms := RfmTable(lines);
    var segs := ScoreTable(ms).value;
    forall s | s in segs
      ensures WellScored(s)
    {
      var i :| 0 <= i < |segs| && segs[i] == s;
      assert ms[i] in ms;
    }
  }

  /** Lines 66-121 over a non-empty cleaned and enriched table: the scored
      table, or the first metric whose quantile edges coincide. */
  function ScoreLines(lines: seq<Line>): (r: Result<seq<Segment>, PipelineError>)
    requires |lines| > 0
    ensures r.Ok? <==> ScoreTable(RfmTable(lines)).Ok?
    ensures r.Err? ==> r.error == BinEdgesNotUnique(ScoreTable(RfmTable(lines)).error)
    ensures r.Ok? ==> |r.value| >= 2 && forall s :: s in r.value ==> WellScored(s)
  {
    match ScoreTable(RfmTable(lines))
    case Err(m) => Err(BinEdgesNotUnique(m))
    case Ok(segs) =>
      ScoredRowsWellScored(lines);
      Ok(segs)
  }

  /** Loading aside, the script end to end: no transactions after cleaning,
      coinciding quantile edges for some metric, or the scored table. */
  function Run(rows: seq<RawRow>): (r: Result<seq<Segment>, PipelineError>)
    ensures r == Err(NoTransactions) <==> Clean(rows) == []
    ensures r.Ok? <==> Clean(rows) != [] && ScoreTable(RfmTable(Enrich(Clean(rows)))).Ok?
    ensures r.Err? && r.error.BinEdgesNotUnique? <==>
            Clean(rows) != [] && ScoreTable(RfmTable(Enrich(Clean(rows)))).Err?
    ensures r.Err? && r.error.BinEdgesNotUnique? ==>
            r.error.metric == ScoreTable(RfmTable(Enrich(Clean(rows)))).error
    ensures r.Ok? ==> |r.value| >= 2 && forall s :: s in r.value ==> WellScored(s)
  {
    var lines := Enrich(Clean(rows));
    if |lines| == 0 then Err(NoTransactions) else ScoreLines(lines)
  }

  /** A run succeeds whenever cleaning leaves transactions and the `rfm`
      table has at least two customers, no two with the same recency or the
      same monetary value. */
  lemma RunSucceeds(rows: seq<RawRow>)
    requires Clean(rows) != []
    requires |RfmTable(Enrich(Clean(rows)))| >= 2 && Separated(RfmTable(Enrich(Clean(rows))))
    ensures Run(rows).Ok?
  {
    ScoreTableSucceeds(RfmTable(Enrich(Clean(rows))));
  }
}
