/** Curves across runs. aggregate_bitrate_percentiles (scripts/plot_bitrate_playback.py, 1328-1411): percentiles
    across the nodes of each run, then the median of each percentile curve; and the median CDF (3262-3289). */
module Aggregation {
  import opened Wrappers
  import opened Trace
  import opened OrderStatistics
  import opened Curves
  import opened Selection
  import opened Reals
  import Grid

  /** The bitrate samples of a run, node by node, as they were logged. */
  type RunLog = seq<Series>

  type Series = seq<Sample<real>>

  // ---------- The time range ----------

  datatype Range = Range(min: real, max: real)

  function Min(a: real, b: real): real { if b < a then b else a }

  function Max(a: real, b: real): real { if a < b then b else a }

  /** A series counts with its first and its last sample; None stands for the infinite starting values. */
  function Widened(r: Option<Range>, series: Series): Option<Range> {
    if |series| == 0 then r
    else
      var first, last := series[0].time, series[|series| - 1].time;
      if r.None? then Some(Range(first, last)) else Some(Range(Min(r.value.min, first), Max(r.value.max, last)))
  }

  function RangeOfNodes(r: Option<Range>, nodes: RunLog): Option<Range> {
    if |nodes| == 0 then r else Widened(RangeOfNodes(r, nodes[..|nodes| - 1]), nodes[|nodes| - 1])
  }

  function RangeOf(runs: seq<RunLog>): Option<Range> {
    if |runs| == 0 then None else RangeOfNodes(RangeOf(runs[..|runs| - 1]), runs[|runs| - 1])
  }

  method TimeRange(runs: seq<RunLog>) returns (r: Option<Range>)
    ensures r == RangeOf(runs)
  {
    r := None;
    for i := 0 to |runs|
      invariant r == RangeOf(runs[..i])
    {
      assert runs[..i + 1][..i] == runs[..i];
      var nodes := runs[i];
      for n := 0 to |nodes|
        invariant r == RangeOfNodes(RangeOf(runs[..i]), nodes[..n])
      {
        assert nodes[..n + 1][..n] == nodes[..n];
        r := Widened(r, nodes[n]);
      }
      assert nodes[..|nodes|] == nodes;
    }
    assert runs[..|runs|] == runs;
  }

  /** The non-empty series of the runs. */
  function LoggedBy(nodes: RunLog): set<Series> {
    set s | s in nodes && |s| > 0
  }

  function Logged(runs: seq<RunLog>): set<Series> {
    if |runs| == 0 then {} else Logged(runs[..|runs| - 1]) + LoggedBy(runs[|runs| - 1])
  }

  /** From the earliest first sample to the latest last one. */
  ghost predicate Spans(r: Option<Range>, logged: set<Series>) {
    && (forall s: Series :: s in logged ==> |s| > 0)
    && (r.None? <==> logged == {})
    && (r.Some? ==>
          && (forall s: Series :: s in logged ==> r.value.min <= s[0].time && s[|s| - 1].time <= r.value.max)
          && (exists s: Series :: s in logged && s[0].time == r.value.min)
          && (exists s: Series :: s in logged && s[|s| - 1].time == r.value.max))
  }

  lemma WidenedSpans(r: Option<Range>, logged: set<Series>, s: Series)
    requires Spans(r, logged) && |s| > 0
    ensures Spans(Widened(r, s), logged + {s})
  {
    var r', all := Widened(r, s), logged + {s};
    assert s in all;
    if r.Some? {
      var a: Series :| a in logged && a[0].time == r.value.min;
      var b: Series :| b in logged && b[|b| - 1].time == r.value.max;
      assert a in all && b in all;
    }
  }

  lemma {:induction false} NodesSpan(r: Option<Range>, logged: set<Series>, nodes: RunLog)
    requires Spans(r, logged)
    ensures Spans(RangeOfNodes(r, nodes), logged + LoggedBy(nodes))
  {
    if |nodes| == 0 {
      assert logged + LoggedBy(nodes) == logged;
    } else {
      var front, last := nodes[..|nodes| - 1], nodes[|nodes| - 1];
      NodesSpan(r, logged, front);
      LoggedBySplit(front, last);
      assert front + [last] == nodes;
      if |last| > 0 {
        WidenedSpans(RangeOfNodes(r, front), logged + LoggedBy(front), last);
        assert logged + (LoggedBy(front) + {last}) == logged + LoggedBy(front) + {last};
      }
    }
  }

  lemma LoggedBySplit(front: RunLog, last: Series)
    ensures LoggedBy(front + [last]) == if |last| > 0 then LoggedBy(front) + {last} else LoggedBy(front)
  {
  }

  /** The time range goes exactly from the earliest first sample to the latest last one, and is None where there
      is no sample. */
  lemma {:induction false} RangeSpansAll(runs: seq<RunLog>)
    ensures Spans(RangeOf(runs), Logged(runs))
  {
    if |runs| == 0 {
    } else {
      RangeSpansAll(runs[..|runs| - 1]);
      NodesSpan(RangeOf(runs[..|runs| - 1]), Logged(runs[..|runs| - 1]), runs[|runs| - 1]);
    }
  }

  lemma {:induction false} LoggedSeries(runs: seq<RunLog>, s: Series)
    ensures s in Logged(runs) <==> |s| > 0 && exists r :: 0 <= r < |runs| && s in runs[r]
  {
    if |runs| == 0 {
    } else {
      LoggedSeries(runs[..|runs| - 1], s);
    }
  }

  // ---------- The runs that count ----------

  /** The non-empty series of a run, each in time order. */
  function NodeSeries(nodes: RunLog): RunLog {
    if |nodes| == 0 then []
    else
      var last := nodes[|nodes| - 1];
      NodeSeries(nodes[..|nodes| - 1]) + if |last| > 0 then [InOrder(last)] else []
  }

  /** The runs in which some node has a sample; the others are dropped. */
  function Kept(runs: seq<RunLog>): seq<RunLog> {
    if |runs| == 0 then []
    else
      var last := NodeSeries(runs[|runs| - 1]);
      Kept(runs[..|runs| - 1]) + if |last| > 0 then [last] else []
  }

  predicate NonEmpty(series: Series) {
    |series| > 0
  }

  predicate HasSample(nodes: RunLog) {
    exists n :: 0 <= n < |nodes| && |nodes[n]| > 0
  }

  /** The series of exactly the nodes that have a sample, in order, each with its samples in time order. */
  ghost predicate SeriesOf(nodes: RunLog, series: RunLog) {
    Selects(series, nodes, NonEmpty, InTimeOrderFrom<real>)
  }

  lemma {:induction false} NodesSelected(nodes: RunLog)
    ensures SeriesOf(nodes, NodeSeries(nodes))
  {
    if |nodes| == 0 {
    } else {
      var front, last := nodes[..|nodes| - 1], nodes[|nodes| - 1];
      NodesSelected(front);
      OneMoreNode(front, NodeSeries(front), last);
      assert front + [last] == nodes;
    }
  }

  lemma OneMoreNode(nodes: RunLog, series: RunLog, last: Series)
    requires SeriesOf(nodes, series)
    ensures SeriesOf(nodes + [last], series + if |last| > 0 then [InOrder(last)] else [])
  {
    InOrderIsFrom(last);
    OneMoreSelected(series, nodes, if |last| > 0 then [InOrder(last)] else [], last, NonEmpty, InTimeOrderFrom<real>);
  }

  lemma {:induction false} NodesHaveSample(nodes: RunLog)
    ensures |NodeSeries(nodes)| > 0 <==> HasSample(nodes)
  {
    if |nodes| == 0 {
    } else {
      NodesHaveSample(nodes[..|nodes| - 1]);
      HasSampleSplit(nodes[..|nodes| - 1], nodes[|nodes| - 1]);
      assert nodes[..|nodes| - 1] + [nodes[|nodes| - 1]] == nodes;
    }
  }

  lemma HasSampleSplit(front: RunLog, last: Series)
    ensures HasSample(front + [last]) <==> HasSample(front) || |last| > 0
  {
    var nodes := front + [last];
    assert nodes[|front|] == last;
    assert forall n :: 0 <= n < |front| ==> nodes[n] == front[n];
  }

  /** Exactly the runs with a sample are kept, in order, with the series of their nodes. */
  lemma {:induction false} RunsSelected(runs: seq<RunLog>)
    ensures Selects(Kept(runs), runs, HasSample, SeriesOf)
  {
    if |runs| == 0 {
      NoneSelected(HasSample, SeriesOf);
    } else {
      var front, last := runs[..|runs| - 1], runs[|runs| - 1];
      RunsSelected(front);
      NodesSelected(last);
      NodesHaveSample(last);
      var series := NodeSeries(last);
      OneMoreSelected(Kept(front), front, if |series| > 0 then [series] else [], last, HasSample, SeriesOf);
      assert front + [last] == runs;
    }
  }

  /** The kept runs by position: an increasing list of exactly the runs with a sample. */
  lemma KeptByPosition(runs: seq<RunLog>) returns (picked: seq<nat>)
    ensures Picks(picked, runs, HasSample) && |Kept(runs)| == |picked|
    ensures forall i :: 0 <= i < |picked| ==> picked[i] < |runs| && SeriesOf(runs[picked[i]], Kept(runs)[i])
  {
    RunsSelected(runs);
    picked := SelectionPicks(Kept(runs), runs, HasSample, SeriesOf);
  }

  /** The series of a run by position: an increasing list of exactly the nodes with a sample. */
  lemma SeriesByPosition(nodes: RunLog, series: RunLog) returns (picked: seq<nat>)
    requires SeriesOf(nodes, series)
    ensures Picks(picked, nodes, NonEmpty) && |series| == |picked|
    ensures forall i :: 0 <= i < |picked| ==> picked[i] < |nodes| && InTimeOrderFrom(nodes[picked[i]], series[i])
  {
    picked := SelectionPicks(series, nodes, NonEmpty, InTimeOrderFrom<real>);
  }

  ghost predicate Ready(nodes: RunLog) {
    |nodes| > 0 && forall n :: 0 <= n < |nodes| ==> InTimeOrder(nodes[n])
  }

  lemma {:induction false} SeriesInOrder(nodes: RunLog)
    ensures forall n :: 0 <= n < |NodeSeries(nodes)| ==> InTimeOrder(NodeSeries(nodes)[n])
  {
    if |nodes| == 0 {
    } else {
      SeriesInOrder(nodes[..|nodes| - 1]);
      InOrderIsOrdered(nodes[|nodes| - 1]);
    }
  }

  lemma {:induction false} KeptAreReady(runs: seq<RunLog>)
    ensures forall r :: 0 <= r < |Kept(runs)| ==> Ready(Kept(runs)[r])
  {
    if |runs| == 0 {
    } else {
      KeptAreReady(runs[..|runs| - 1]);
      SeriesInOrder(runs[|runs| - 1]);
    }
  }

  lemma {:induction false} NodesWithRange(r: Option<Range>, nodes: RunLog)
    ensures RangeOfNodes(r, nodes).Some? <==> r.Some? || |NodeSeries(nodes)| > 0
  {
    if |nodes| == 0 {
    } else {
      NodesWithRange(r, nodes[..|nodes| - 1]);
    }
  }

  /** There is a time range exactly when there is a run to aggregate. */
  lemma {:induction false} RangeOfKept(runs: seq<RunLog>)
    ensures RangeOf(runs).Some? <==> |Kept(runs)| > 0
  {
    if |runs| == 0 {
    } else {
      RangeOfKept(runs[..|runs| - 1]);
      NodesWithRange(RangeOf(runs[..|runs| - 1]), runs[|runs| - 1]);
    }
  }

  // ---------- The median of each curve ----------

  function Column(rows: seq<seq<real>>, b: nat): (r: seq<real>)
    requires forall i :: 0 <= i < |rows| ==> b < |rows[i]|
    ensures |r| == |rows| && forall i :: 0 <= i < |rows| ==> r[i] == rows[i][b]
  {
    seq(|rows|, i requires 0 <= i < |rows| => rows[i][b])
  }

  /** The median of each column of a table with n columns. */
  function MedianOfColumns(rows: seq<seq<real>>, n: nat): (r: seq<real>)
    requires |rows| > 0 && forall i :: 0 <= i < |rows| ==> |rows[i]| == n
    ensures |r| == n
  {
    seq(n, b requires 0 <= b < n => Median(Column(rows, b)))
  }

  /** One row a run: its percentile curve. */
  ghost predicate CurvesOf(rows: seq<seq<real>>, runs: seq<RunLog>, ends: seq<real>, q: real)
    requires 0.0 <= q <= 1.0
  {
    |rows| == |runs| && forall r :: 0 <= r < |runs| ==> IsCurveOf(rows[r], runs[r], ends, q)
  }

  ghost predicate IsCurveOf(row: seq<real>, nodes: RunLog, ends: seq<real>, q: real)
    requires 0.0 <= q <= 1.0
  {
    Ready(nodes) && row == PercentileSeries(nodes, ends, q)
  }

  lemma OneMoreCurve(rows: seq<seq<real>>, runs: seq<RunLog>, i: nat, row: seq<real>, ends: seq<real>, q: real)
    requires 0.0 <= q <= 1.0 && i < |runs|
    requires CurvesOf(rows, runs[..i], ends, q) && IsCurveOf(row, runs[i], ends, q)
    ensures CurvesOf(rows + [row], runs[..i + 1], ends, q)
  {
    forall r | 0 <= r <= i ensures IsCurveOf((rows + [row])[r], runs[r], ends, q) {
      assert r < i ==> IsCurveOf(rows[r], runs[..i][r], ends, q);
    }
  }

  lemma RowShowsCurve(row: seq<real>, nodes: RunLog, ends: seq<real>, q: real, b: nat)
    requires 0.0 <= q <= 1.0 && IsCurveOf(row, nodes, ends, q) && b < |ends|
    ensures |row| == |ends| && row[b] == PercentileCurve(q, ends[b])(nodes)
  {
    PercentileSeriesAt(nodes, ends, q, b);
  }

  lemma MedianOfValues(column: seq<real>, runs: seq<RunLog>, curve: RunLog -> real)
    requires |runs| > 0 && |column| == |runs| && forall r :: 0 <= r < |runs| ==> column[r] == curve(runs[r])
    ensures Median(column) == MedianOver(runs, curve)
  {
    assert column == AcrossRuns(runs, curve);
  }

  lemma ColumnIsCurve(rows: seq<seq<real>>, runs: seq<RunLog>, ends: seq<real>, q: real, b: nat)
    requires 0.0 <= q <= 1.0 && |runs| > 0 && CurvesOf(rows, runs, ends, q) && b < |ends|
    ensures MedianOfColumns(rows, |ends|)[b] == MedianOver(runs, PercentileCurve(q, ends[b]))
  {
    var curve := PercentileCurve(q, ends[b]);
    forall r | 0 <= r < |runs| ensures rows[r][b] == curve(runs[r]) {
      RowShowsCurve(rows[r], runs[r], ends, q, b);
    }
    MedianOfValues(Column(rows, b), runs, curve);
  }

  /** In each bin, the median over the runs of the percentile across nodes. */
  ghost predicate IsAggregate(curve: seq<real>, runs: seq<RunLog>, ends: seq<real>, q: real)
    requires |runs| > 0 && 0.0 <= q <= 1.0
  {
    |curve| == |ends| && forall b :: 0 <= b < |curve| ==> curve[b] == MedianOver(runs, PercentileCurve(q, ends[b]))
  }

  lemma ColumnsAreAggregate(rows: seq<seq<real>>, runs: seq<RunLog>, ends: seq<real>, q: real)
    requires 0.0 <= q <= 1.0 && |runs| > 0 && CurvesOf(rows, runs, ends, q)
    ensures IsAggregate(MedianOfColumns(rows, |ends|), runs, ends, q)
  {
    forall b | 0 <= b < |ends|
      ensures MedianOfColumns(rows, |ends|)[b] == MedianOver(runs, PercentileCurve(q, ends[b]))
    {
      ColumnIsCurve(rows, runs, ends, q, b);
    }
  }

  /** A higher percentile gives a curve that is nowhere lower. */
  lemma AggregatesOrdered(low: seq<real>, high: seq<real>, runs: seq<RunLog>, ends: seq<real>, p: real, q: real)
    requires |runs| > 0 && 0.0 <= p <= q <= 1.0
    requires IsAggregate(low, runs, ends, p) && IsAggregate(high, runs, ends, q)
    ensures forall b :: 0 <= b < |ends| ==> low[b] <= high[b]
  {
    forall b | 0 <= b < |ends| ensures low[b] <= high[b] {
      AggregatedPercentilesOrdered(runs, p, q, ends[b]);
    }
  }

  /** The loop over the runs and the medians behind it. */
  method AggregateRuns(runs: seq<RunLog>, ends: seq<real>) returns (p50: seq<real>, p25: seq<real>, p75: seq<real>)
    requires |runs| > 0 && Nondecreasing(ends) && forall r :: 0 <= r < |runs| ==> Ready(runs[r])
    ensures IsAggregate(p50, runs, ends, 0.5)
    ensures IsAggregate(p25, runs, ends, 0.25)
    ensures IsAggregate(p75, runs, ends, 0.75)
  {
    var rows50: seq<seq<real>>, rows25: seq<seq<real>>, rows75: seq<seq<real>> := [], [], [];
    for i := 0 to |runs|
      invariant CurvesOf(rows50, runs[..i], ends, 0.5)
      invariant CurvesOf(rows25, runs[..i], ends, 0.25)
      invariant CurvesOf(rows75, runs[..i], ends, 0.75)
    {
      var r50, r25, r75 := RunPercentiles(runs[i], ends);
      OneMoreCurve(rows50, runs, i, r50, ends, 0.5);
      OneMoreCurve(rows25, runs, i, r25, ends, 0.25);
      OneMoreCurve(rows75, runs, i, r75, ends, 0.75);
      rows50, rows25, rows75 := rows50 + [r50], rows25 + [r25], rows75 + [r75];
    }
    assert runs[..|runs|] == runs;
    p50, p25, p75 := MedianOfColumns(rows50, |ends|), MedianOfColumns(rows25, |ends|), MedianOfColumns(rows75, |ends|);
    ColumnsAreAggregate(rows50, runs, ends, 0.5);
    ColumnsAreAggregate(rows25, runs, ends, 0.25);
    ColumnsAreAggregate(rows75, runs, ends, 0.75);
  }

  /** bins[1:]: where each bin ends. */
  function BinEnds(min: real, max: real, timeBin: real): (ends: seq<real>)
    requires timeBin > 0.0
    ensures |ends| == |Grid.BinCentres(min, max + timeBin, timeBin)|
  {
    var bins := Grid.Arange(min, max + timeBin, timeBin);
    if |bins| == 0 then [] else bins[1..]
  }

  /** Bin b is the interval of length timeBin around its centre; it ends half a bin behind that. */
  lemma EndOfBin(min: real, max: real, timeBin: real, b: nat)
    requires timeBin > 0.0 && b < |BinEnds(min, max, timeBin)|
    ensures BinEnds(min, max, timeBin)[b] == Grid.BinCentres(min, max + timeBin, timeBin)[b] + timeBin / 2.0
    ensures BinEnds(min, max, timeBin)[b] == min + Times((b + 1) as real, timeBin)
  {
    Grid.ArangeStep(min, max + timeBin, timeBin, b);
  }

  lemma BinEndsIncrease(min: real, max: real, timeBin: real)
    requires timeBin > 0.0
    ensures Nondecreasing(BinEnds(min, max, timeBin))
  {
    Grid.ArangeIncreases(min, max + timeBin, timeBin);
  }

  /** The last time of the range, or the given end of the plot when that is later. */
  function Until(r: Range, globalMax: Option<real>): (until: real)
    ensures r.max <= until && (globalMax.Some? ==> globalMax.value <= until)
    ensures until == r.max || globalMax == Some(until)
  {
    if globalMax.Some? then Max(r.max, globalMax.value) else r.max
  }

  method AggregateInRange(runs: seq<RunLog>, timeBin: real, globalMax: Option<real>)
    returns (centres: seq<real>, p50: seq<real>, p25: seq<real>, p75: seq<real>)
    requires timeBin > 0.0
    ensures |p50| == |p25| == |p75| == |centres|
    ensures forall b :: 0 <= b < |centres| ==> p25[b] <= p50[b] <= p75[b]
    ensures |Kept(runs)| == 0 ==> centres == []
    ensures |Kept(runs)| > 0 ==>
              RangeOf(runs).Some? &&
              var min, max := RangeOf(runs).value.min, Until(RangeOf(runs).value, globalMax);
              && centres == Grid.BinCentres(min, max + timeBin, timeBin)
              && IsAggregate(p50, Kept(runs), BinEnds(min, max, timeBin), 0.5)
              && IsAggregate(p25, Kept(runs), BinEnds(min, max, timeBin), 0.25)
              && IsAggregate(p75, Kept(runs), BinEnds(min, max, timeBin), 0.75)
  {
    var range := TimeRange(runs);
    RangeOfKept(runs);
    if range.None? {
      return [], [], [], [];
    }
    var max := Until(range.value, globalMax);
    centres := Grid.BinCentres(range.value.min, max + timeBin, timeBin);
    var ends := BinEnds(range.value.min, max, timeBin);
    BinEndsIncrease(range.value.min, max, timeBin);
    KeptAreReady(runs);
    p50, p25, p75 := AggregateRuns(Kept(runs), ends);
    AggregatesOrdered(p25, p50, Kept(runs), ends, 0.25, 0.5);
    AggregatesOrdered(p50, p75, Kept(runs), ends, 0.5, 0.75);
  }

  /** `kept` is what the aggregation goes by: exactly the runs with a sample, in order, and of each of them exactly
      the nodes with a sample, in order, with their samples in time order. The bins cover the logged times. */
  ghost predicate GoesBy(runs: seq<RunLog>, kept: seq<RunLog>, range: Option<Range>) {
    Selects(kept, runs, HasSample, SeriesOf) && Spans(range, Logged(runs))
  }

  /** The aggregated curves of all runs that have a sample: in every bin p25 <= p50 <= p75. */
  method AggregateBitratePercentiles(runs: seq<RunLog>, timeBin: real, globalMax: Option<real>)
    returns (centres: seq<real>, p50: seq<real>, p25: seq<real>, p75: seq<real>)
    requires timeBin > 0.0
    ensures |p50| == |p25| == |p75| == |centres|
    ensures forall b :: 0 <= b < |centres| ==> p25[b] <= p50[b] <= p75[b]
    ensures GoesBy(runs, Kept(runs), RangeOf(runs))
    ensures |Kept(runs)| == 0 ==> centres == []
    ensures |Kept(runs)| > 0 ==>
              RangeOf(runs).Some? &&
              var min, max := RangeOf(runs).value.min, Until(RangeOf(runs).value, globalMax);
              && centres == Grid.BinCentres(min, max + timeBin, timeBin)
              && IsAggregate(p50, Kept(runs), BinEnds(min, max, timeBin), 0.5)
              && IsAggregate(p25, Kept(runs), BinEnds(min, max, timeBin), 0.25)
              && IsAggregate(p75, Kept(runs), BinEnds(min, max, timeBin), 0.75)
  {
    centres, p50, p25, p75 := AggregateInRange(runs, timeBin, globalMax);
    RunsSelected(runs);
    RangeSpansAll(runs);
  }

  // ---------- The median CDF ----------

  /** The runs that have a value; for the others there is no CDF. */
  function WithValues(runs: seq<seq<real>>): seq<seq<real>> {
    if |runs| == 0 then []
    else WithValues(runs[..|runs| - 1]) + if |runs[|runs| - 1]| > 0 then [runs[|runs| - 1]] else []
  }

  predicate HasValue(vals: seq<real>) {
    |vals| > 0
  }

  predicate Same(a: seq<real>, b: seq<real>) {
    a == b
  }

  lemma {:induction false} ValuesSelected(runs: seq<seq<real>>)
    ensures Selects(WithValues(runs), runs, HasValue, Same)
  {
    if |runs| == 0 {
      NoneSelected(HasValue, Same);
    } else {
      var front, last := runs[..|runs| - 1], runs[|runs| - 1];
      ValuesSelected(front);
      OneMoreSelected(WithValues(front), front, if |last| > 0 then [last] else [], last, HasValue, Same);
      assert front + [last] == runs;
    }
  }

  /** One row a run: the share of its values up to the largest grid point so far. */
  ghost predicate IsCdfOf(row: seq<real>, vals: seq<real>, grid: seq<real>) {
    && |vals| > 0 && |row| == |grid|
    && forall j :: 0 <= j < |grid| ==> row[j] == Cdf(GridMax(grid, j))(vals)
  }

  ghost predicate CdfsOf(rows: seq<seq<real>>, runs: seq<seq<real>>, grid: seq<real>) {
    |rows| == |runs| && forall r :: 0 <= r < |runs| ==> IsCdfOf(rows[r], runs[r], grid)
  }

  lemma SortedCdf(vals: seq<real>, grid: seq<real>, row: seq<real>)
    requires |vals| > 0 && |row| == |grid|
    requires forall j :: 0 <= j < |grid| ==> |Sorted(vals)| > 0 && row[j] == GridCdf(Sorted(vals), grid, j)
    ensures IsCdfOf(row, vals, grid)
  {
    forall j | 0 <= j < |grid| ensures row[j] == Cdf(GridMax(grid, j))(vals) {
      CountOfSorted(vals, GridMax(grid, j));
    }
  }

  lemma OneMoreCdf(rows: seq<seq<real>>, runs: seq<seq<real>>, row: seq<real>, vals: seq<real>, grid: seq<real>)
    requires CdfsOf(rows, runs, grid) && IsCdfOf(row, vals, grid)
    ensures CdfsOf(rows + [row], runs + [vals], grid)
  {
    forall r | 0 <= r <= |runs| ensures IsCdfOf((rows + [row])[r], (runs + [vals])[r], grid) {
      assert r < |runs| ==> IsCdfOf(rows[r], runs[r], grid);
    }
  }

  /** The loop over the runs: the CDF of each run that has a value. */
  method RunCdfs(runs: seq<seq<real>>, grid: seq<real>) returns (rows: seq<seq<real>>)
    ensures CdfsOf(rows, WithValues(runs), grid)
  {
    rows := [];
    for i := 0 to |runs|
      invariant CdfsOf(rows, WithValues(runs[..i]), grid)
    {
      assert runs[..i + 1][..i] == runs[..i];
      SortedIsNondecreasing(runs[i]);
      var cdf := CdfValues(Sorted(runs[i]), grid);
      if cdf.Some? {
        SortedCdf(runs[i], grid, cdf.value);
        OneMoreCdf(rows, WithValues(runs[..i]), cdf.value, runs[i], grid);
        rows := rows + [cdf.value];
      }
    }
    assert runs[..|runs|] == runs;
  }

  lemma MedianIsOverRuns(rows: seq<seq<real>>, runs: seq<seq<real>>, grid: seq<real>, j: nat)
    requires |runs| > 0 && CdfsOf(rows, runs, grid) && j < |grid|
    ensures MedianOfColumns(rows, |grid|)[j] == MedianOver(runs, Cdf(GridMax(grid, j)))
  {
    var cdf := Cdf(GridMax(grid, j));
    forall r | 0 <= r < |runs| ensures rows[r][j] == cdf(runs[r]) {
      assert IsCdfOf(rows[r], runs[r], grid);
    }
    assert Column(rows, j) == AcrossRuns(runs, cdf);
  }

  /** The median over the runs at each grid point: the curve never falls and stays within [0, 1]. */
  lemma MedianCurveIsMonotone(median: seq<real>, runs: seq<seq<real>>, grid: seq<real>)
    requires |runs| > 0 && |median| == |grid|
    requires forall j :: 0 <= j < |grid| ==> median[j] == MedianOver(runs, Cdf(GridMax(grid, j)))
    ensures forall j :: 0 <= j < |grid| ==> 0.0 <= median[j] <= 1.0
    ensures forall j :: 0 < j < |grid| ==> median[j - 1] <= median[j]
  {
    forall j | 0 <= j < |grid| ensures 0.0 <= median[j] <= 1.0 && (j > 0 ==> median[j - 1] <= median[j]) {
      MedianCdfIsMonotone(runs, GridMax(grid, if j > 0 then j - 1 else j), GridMax(grid, j));
    }
  }

  /** The curve over the runs with a value, if there are any. */
  method MedianOfCdfs(runs: seq<seq<real>>, grid: seq<real>) returns (median: Option<seq<real>>)
    ensures median.None? <==> |WithValues(runs)| == 0
    ensures median.Some? ==> |median.value| == |grid|
    ensures median.Some? ==> forall j :: 0 <= j < |grid| ==>
              median.value[j] == MedianOver(WithValues(runs), Cdf(GridMax(grid, j)))
  {
    var rows := RunCdfs(runs, grid);
    if |rows| == 0 {
      return None;
    }
    ghost var kept := WithValues(runs);
    assert forall r :: 0 <= r < |kept| ==> IsCdfOf(rows[r], kept[r], grid);
    var curve := MedianOfColumns(rows, |grid|);
    forall j | 0 <= j < |grid| ensures curve[j] == MedianOver(kept, Cdf(GridMax(grid, j))) {
      MedianIsOverRuns(rows, kept, grid, j);
    }
    median := Some(curve);
  }

  /** The plotted curve: None when no run has a value. Otherwise it has one value a grid point, the median of the
      CDFs of exactly the runs that have one; it never falls and stays within [0, 1]. */
  method MedianCdf(runs: seq<seq<real>>, grid: seq<real>) returns (median: Option<seq<real>>)
    ensures Selects(WithValues(runs), runs, HasValue, Same)
    ensures median.None? <==> |WithValues(runs)| == 0
    ensures median.Some? ==> |median.value| == |grid|
    ensures median.Some? ==> forall j :: 0 <= j < |grid| ==> 0.0 <= median.value[j] <= 1.0
    ensures median.Some? ==> forall j :: 0 < j < |grid| ==> median.value[j - 1] <= median.value[j]
    ensures median.Some? ==> forall j :: 0 <= j < |grid| ==>
              median.value[j] == MedianOver(WithValues(runs), Cdf(GridMax(grid, j)))
  {
    median := MedianOfCdfs(runs, grid);
    if median.Some? {
      MedianCurveIsMonotone(median.value, WithValues(runs), grid);
    }
    ValuesSelected(runs);
  }
}
