/** Percentile and CDF curves over many runs (scripts/plot_bitrate_playback.py, 1328-1411 and 3210-3289). */
module Curves {
  import opened Wrappers
  import opened Trace
  import opened Cursors
  import opened OrderStatistics
  import opened Reals

  // ---------- One run: percentiles across its nodes, bin by bin ----------

  /** The value a node shows at time t: its last sample up to t, zero before the first. */
  function ValueAt(series: seq<Sample<real>>, t: real): real {
    var last := LastPassed(series, UpTo(t));
    if last.Some? then last.value.value else 0.0
  }

  function ValuesAt(nodes: seq<seq<Sample<real>>>, t: real): (r: seq<real>)
    ensures |r| == |nodes|
  {
    seq(|nodes|, n requires 0 <= n < |nodes| => ValueAt(nodes[n], t))
  }

  /** A node's cursor: it has passed exactly the samples up to t, and keeps the last value it passed. */
  ghost predicate CursorAt(series: seq<Sample<real>>, idx: nat, last: real, t: real) {
    && idx <= |series|
    && (idx > 0 ==> series[idx - 1].time <= t && last == series[idx - 1].value)
    && (idx == 0 ==> last == 0.0)
  }

  lemma CursorShowsValue(series: seq<Sample<real>>, idx: nat, last: real, t: real)
    requires InTimeOrder(series) && CursorAt(series, idx, last, t)
    requires idx < |series| ==> t < series[idx].time
    ensures ValueAt(series, t) == last
  {
    forall j | idx <= j < |series| ensures !UpTo(t)(series[j]) {
      assert idx < j ==> series[idx].time <= series[j].time;
    }
    CursorReads(series, UpTo(t), idx);
  }

  /** The inner loop: moves one node's cursor up to t. */
  method Advance(series: seq<Sample<real>>, start: nat, held: real, t: real) returns (idx: nat, last: real)
    requires InTimeOrder(series) && CursorAt(series, start, held, t)
    ensures CursorAt(series, idx, last, t) && last == ValueAt(series, t)
  {
    idx, last := start, held;
    while idx < |series| && series[idx].time <= t
      invariant CursorAt(series, idx, last, t)
    {
      last := series[idx].value;
      idx := idx + 1;
    }
    CursorShowsValue(series, idx, last, t);
  }

  /** The percentile across nodes of what they show at time t. */
  function NodePercentile(nodes: seq<seq<Sample<real>>>, q: real, t: real): real
    requires |nodes| > 0 && 0.0 <= q <= 1.0
  {
    Percentile(ValuesAt(nodes, t), q)
  }

  /** Sample i is the latest one up to t. */
  ghost predicate LatestAt(series: seq<Sample<real>>, t: real, i: nat) {
    i < |series| && series[i].time <= t && forall j :: i < j < |series| ==> t < series[j].time
  }

  /** The value of the latest sample up to t, or zero where there is none. */
  ghost predicate Shows(series: seq<Sample<real>>, t: real, value: real) {
    && (forall i: nat :: LatestAt(series, t, i) ==> value == series[i].value)
    && ((forall i: nat :: !LatestAt(series, t, i)) ==> value == 0.0)
  }

  lemma {:induction false} ValueIsShown(series: seq<Sample<real>>, t: real)
    ensures Shows(series, t, ValueAt(series, t))
  {
    if |series| == 0 {
    } else if series[|series| - 1].time <= t {
      assert LatestAt(series, t, |series| - 1);
    } else {
      var front := series[..|series| - 1];
      ValueIsShown(front, t);
      assert ValueAt(series, t) == ValueAt(front, t);
      assert forall i: nat :: LatestAt(series, t, i) <==> LatestAt(front, t, i);
    }
  }

  lemma ShownOnce(series: seq<Sample<real>>, t: real, v: real, w: real)
    requires Shows(series, t, v) && Shows(series, t, w)
    ensures v == w
  {
    if i: nat :| LatestAt(series, t, i) {
      assert v == series[i].value == w;
    }
  }

  /** The percentile across nodes is that of the values the nodes show. */
  lemma PercentileOfShown(nodes: seq<seq<Sample<real>>>, values: seq<real>, q: real, t: real)
    requires |nodes| == |values| > 0 && 0.0 <= q <= 1.0
    requires forall n :: 0 <= n < |nodes| ==> Shows(nodes[n], t, values[n])
    ensures NodePercentile(nodes, q, t) == Percentile(values, q)
  {
    forall n | 0 <= n < |nodes| ensures ValuesAt(nodes, t)[n] == values[n] {
      ValueIsShown(nodes[n], t);
      ShownOnce(nodes[n], t, ValueAt(nodes[n], t), values[n]);
    }
    assert ValuesAt(nodes, t) == values;
  }

  ghost predicate AllCursorsAt(nodes: seq<seq<Sample<real>>>, idx: seq<nat>, last: seq<real>, t: real) {
    |idx| == |last| == |nodes| && forall n :: 0 <= n < |nodes| ==> CursorAt(nodes[n], idx[n], last[n], t)
  }

  lemma CursorsStay(nodes: seq<seq<Sample<real>>>, idx: seq<nat>, last: seq<real>, t: real, u: real)
    requires AllCursorsAt(nodes, idx, last, t) && t <= u
    ensures AllCursorsAt(nodes, idx, last, u)
  {
  }

  /** The loop over the nodes in one bin. */
  method AdvanceAll(nodes: seq<seq<Sample<real>>>, startIdx: seq<nat>, startLast: seq<real>, t: real)
    returns (nodeIdx: seq<nat>, nodeLast: seq<real>, values: seq<real>)
    requires AllCursorsAt(nodes, startIdx, startLast, t)
    requires forall n :: 0 <= n < |nodes| ==> InTimeOrder(nodes[n])
    ensures AllCursorsAt(nodes, nodeIdx, nodeLast, t) && values == ValuesAt(nodes, t)
  {
    nodeIdx, nodeLast, values := startIdx, startLast, [];
    for n := 0 to |nodes|
      invariant |values| == n && AllCursorsAt(nodes, nodeIdx, nodeLast, t)
      invariant forall k :: 0 <= k < n ==> values[k] == ValueAt(nodes[k], t)
    {
      var idx, last := Advance(nodes[n], nodeIdx[n], nodeLast[n], t);
      nodeIdx, nodeLast := nodeIdx[n := idx], nodeLast[n := last];
      values := values + [last];
    }
  }

  /** One percentile curve of a run: at each bin's end, the percentile of what the nodes show then. */
  function PercentileSeries(nodes: seq<seq<Sample<real>>>, binEnds: seq<real>, q: real): (r: seq<real>)
    requires |nodes| > 0 && 0.0 <= q <= 1.0
    ensures |r| == |binEnds|
  {
    if |binEnds| == 0 then []
    else
      var n := |binEnds| - 1;
      PercentileSeries(nodes, binEnds[..n], q) + [NodePercentile(nodes, q, binEnds[n])]
  }

  lemma {:induction false} PercentileSeriesAt(nodes: seq<seq<Sample<real>>>, binEnds: seq<real>, q: real, b: nat)
    requires |nodes| > 0 && 0.0 <= q <= 1.0 && b < |binEnds|
    ensures PercentileSeries(nodes, binEnds, q)[b] == NodePercentile(nodes, q, binEnds[b])
  {
    if b == |binEnds| - 1 {
    } else {
      PercentileSeriesAt(nodes, binEnds[..|binEnds| - 1], q, b);
    }
  }

  /** The percentile curves of one run. One cursor and held value per node are carried through all bins. */
  method RunPercentiles(nodes: seq<seq<Sample<real>>>, binEnds: seq<real>)
    returns (p50: seq<real>, p25: seq<real>, p75: seq<real>)
    requires |nodes| > 0 && forall n :: 0 <= n < |nodes| ==> InTimeOrder(nodes[n])
    requires Nondecreasing(binEnds)
    ensures p50 == PercentileSeries(nodes, binEnds, 0.5)
    ensures p25 == PercentileSeries(nodes, binEnds, 0.25)
    ensures p75 == PercentileSeries(nodes, binEnds, 0.75)
  {
    p50, p25, p75 := [], [], [];
    var nodeIdx: seq<nat> := seq(|nodes|, _ => 0);
    var nodeLast := seq(|nodes|, _ => 0.0);
    for b := 0 to |binEnds|
      invariant p50 == PercentileSeries(nodes, binEnds[..b], 0.5)
      invariant p25 == PercentileSeries(nodes, binEnds[..b], 0.25)
      invariant p75 == PercentileSeries(nodes, binEnds[..b], 0.75)
      invariant b < |binEnds| ==> AllCursorsAt(nodes, nodeIdx, nodeLast, binEnds[b])
    {
      var values: seq<real>;
      nodeIdx, nodeLast, values := AdvanceAll(nodes, nodeIdx, nodeLast, binEnds[b]);
      assert binEnds[..b + 1][..b] == binEnds[..b];
      p50 := p50 + [Percentile(values, 0.5)];
      p25 := p25 + [Percentile(values, 0.25)];
      p75 := p75 + [Percentile(values, 0.75)];
      if b + 1 < |binEnds| {
        CursorsStay(nodes, nodeIdx, nodeLast, binEnds[b], binEnds[b + 1]);
      }
    }
    assert binEnds[..|binEnds|] == binEnds;
  }

  // ---------- Across runs: the median of each curve ----------

  /** What each run's curve is at one point. */
  function AcrossRuns<T>(runs: seq<T>, curve: T -> real): (r: seq<real>)
    ensures |r| == |runs| && forall i :: 0 <= i < |r| ==> r[i] == curve(runs[i])
  {
    seq(|runs|, i requires 0 <= i < |runs| => curve(runs[i]))
  }

  /** The median over runs of a per-run curve, at one point. */
  function MedianOver<T>(runs: seq<T>, curve: T -> real): real
    requires |runs| > 0
  {
    Median(AcrossRuns(runs, curve))
  }

  /** Whatever order two curves have in every run, their medians over the runs have it too. */
  lemma MedianKeepsOrder<T>(runs: seq<T>, f: T -> real, g: T -> real)
    requires |runs| > 0 && forall r :: 0 <= r < |runs| ==> f(runs[r]) <= g(runs[r])
    ensures MedianOver(runs, f) <= MedianOver(runs, g)
  {
    MedianPointwise(AcrossRuns(runs, f), AcrossRuns(runs, g));
  }

  lemma MedianKeepsBounds<T>(runs: seq<T>, f: T -> real, low: real, high: real)
    requires |runs| > 0 && forall r :: 0 <= r < |runs| ==> low <= f(runs[r]) <= high
    ensures low <= MedianOver(runs, f) <= high
  {
    var xs := AcrossRuns(runs, f);
    MedianIsPercentile(xs);
    PercentileInBounds(xs, 0.5, low, high);
  }

  /** The aggregated percentile curve at time t: per run across nodes, then the median across runs. Runs
      without a node are left out before, as are nodes without a sample. */
  function PercentileCurve(q: real, t: real): seq<seq<Sample<real>>> -> real
    requires 0.0 <= q <= 1.0
  {
    (nodes: seq<seq<Sample<real>>>) => if |nodes| == 0 then 0.0 else NodePercentile(nodes, q, t)
  }

  /** In every bin the aggregated curves are ordered: p25 <= p50 <= p75, for any runs and any two percentiles. */
  lemma AggregatedPercentilesOrdered(runs: seq<seq<seq<Sample<real>>>>, p: real, q: real, t: real)
    requires |runs| > 0 && 0.0 <= p <= q <= 1.0
    ensures MedianOver(runs, PercentileCurve(p, t)) <= MedianOver(runs, PercentileCurve(q, t))
  {
    forall r | 0 <= r < |runs| ensures PercentileCurve(p, t)(runs[r]) <= PercentileCurve(q, t)(runs[r]) {
      if |runs[r]| > 0 {
        PercentileMonotone(ValuesAt(runs[r], t), p, q);
      }
    }
    MedianKeepsOrder(runs, PercentileCurve(p, t), PercentileCurve(q, t));
  }

  // ---------- CDFs ----------

  /** The largest grid point up to index k. */
  function GridMax(grid: seq<real>, k: nat): real
    requires k < |grid|
  {
    if k == 0 || grid[k] >= GridMax(grid, k - 1) then grid[k] else GridMax(grid, k - 1)
  }

  lemma {:induction false} GridMaxOfSorted(grid: seq<real>, k: nat)
    requires k < |grid| && Nondecreasing(grid)
    ensures GridMax(grid, k) == grid[k]
  {
    if k == 0 {
    } else {
      GridMaxOfSorted(grid, k - 1);
      assert grid[k - 1] <= grid[k];
    }
  }

  /** On a nondecreasing grid the one-pass CDF is count(v <= x) / n at every point. */
  lemma CdfOnSortedGrid(vals: seq<real>, grid: seq<real>, k: nat)
    requires |vals| > 0 && k < |grid| && Nondecreasing(grid)
    ensures GridCdf(vals, grid, k) == Cdf(grid[k])(vals)
  {
    GridMaxOfSorted(grid, k);
  }

  /** The cursor has passed the values up to v, and only those. */
  ghost predicate Splits(vals: seq<real>, idx: nat, v: real) {
    idx <= |vals| && (idx > 0 ==> vals[idx - 1] <= v) && (idx < |vals| ==> v < vals[idx])
  }

  /** A cursor in a sorted list that has passed exactly the values up to v has counted them. */
  lemma CursorCounts(vals: seq<real>, idx: nat, v: real)
    requires Nondecreasing(vals) && Splits(vals, idx, v)
    ensures CountLe(vals, v) == idx
  {
    if idx > 0 { RankByCount(vals, v, idx - 1); }
    if idx < |vals| { RankByCount(vals, v, idx); }
  }

  /** The share of n values that `count` of them make up. */
  function Share(count: nat, n: nat): (share: real)
    requires count <= n && n > 0
    ensures 0.0 <= share <= 1.0 && share * n as real == count as real
  {
    DivideMonotone(0.0, count as real, n as real);
    DivideMonotone(count as real, n as real, n as real);
    count as real / n as real
  }

  /** The inner loop: moves the cursor past the values up to x. */
  method SkipUpTo(vals: seq<real>, start: nat, x: real) returns (idx: nat)
    requires start <= |vals|
    ensures start <= idx <= |vals|
    ensures idx > start ==> vals[idx - 1] <= x
    ensures idx < |vals| ==> x < vals[idx]
  {
    idx := start;
    while idx < |vals| && vals[idx] <= x
      invariant start <= idx <= |vals|
      invariant idx > start ==> vals[idx - 1] <= x
    {
      idx := idx + 1;
    }
  }

  lemma CursorSplitsNext(vals: seq<real>, idx: nat, next: nat, grid: seq<real>, k: nat)
    requires Nondecreasing(vals) && |vals| > 0 && k < |grid| && idx <= next <= |vals|
    requires if k == 0 then idx == 0 else Splits(vals, idx, GridMax(grid, k - 1))
    requires next > idx ==> vals[next - 1] <= grid[k]
    requires next < |vals| ==> grid[k] < vals[next]
    ensures Splits(vals, next, GridMax(grid, k))
    ensures Share(next, |vals|) == GridCdf(vals, grid, k)
  {
    assert idx < next < |vals| ==> vals[idx] <= vals[next];
    CursorCounts(vals, next, GridMax(grid, k));
  }

  /** The share of the values up to the largest of the first k+1 grid points. */
  function GridCdf(vals: seq<real>, grid: seq<real>, k: nat): real
    requires |vals| > 0 && k < |grid|
  {
    Share(CountLe(vals, GridMax(grid, k)), |vals|)
  }

  /** The one-pass CDF of a sorted list. At each grid point it is the share of values up to the largest grid
      point so far, so for a nondecreasing grid exactly count(v <= x) / n. */
  method CdfValues(sortedVals: seq<real>, grid: seq<real>) returns (cdf: Option<seq<real>>)
    requires Nondecreasing(sortedVals)
    ensures cdf.None? <==> |sortedVals| == 0
    ensures cdf.Some? ==> |cdf.value| == |grid|
    ensures cdf.Some? ==> forall k :: 0 <= k < |grid| ==>
              cdf.value[k] == GridCdf(sortedVals, grid, k)
  {
    if |sortedVals| == 0 {
      return None;
    }
    var n, idx := |sortedVals|, 0;
    var out: seq<real> := [];
    for k := 0 to |grid|
      invariant 0 <= idx <= n && |out| == k
      invariant k == 0 ==> idx == 0
      invariant k > 0 ==> Splits(sortedVals, idx, GridMax(grid, k - 1))
      invariant forall j :: 0 <= j < k ==> out[j] == GridCdf(sortedVals, grid, j)
    {
      var next := SkipUpTo(sortedVals, idx, grid[k]);
      CursorSplitsNext(sortedVals, idx, next, grid, k);
      idx := next;
      out := out + [Share(idx, n)];
    }
    cdf := Some(out);
  }

  /** The empirical distribution function of one run at x. */
  function Cdf(x: real): seq<real> -> real {
    (vals: seq<real>) => if |vals| == 0 then 0.0 else Share(CountLe(vals, x), |vals|)
  }

  /** The median CDF over runs is nondecreasing along the axis and stays within [0, 1]. */
  lemma MedianCdfIsMonotone(runs: seq<seq<real>>, x: real, y: real)
    requires |runs| > 0 && x <= y
    ensures 0.0 <= MedianOver(runs, Cdf(x)) <= MedianOver(runs, Cdf(y)) <= 1.0
  {
    forall r | 0 <= r < |runs| ensures 0.0 <= Cdf(x)(runs[r]) <= Cdf(y)(runs[r]) <= 1.0 {
      CountMonotone(runs[r], x, y);
      if |runs[r]| > 0 {
        DivideMonotone(CountLe(runs[r], x) as real, CountLe(runs[r], y) as real, |runs[r]| as real);
      }
    }
    MedianKeepsOrder(runs, Cdf(x), Cdf(y));
    MedianKeepsBounds(runs, Cdf(x), 0.0, 1.0);
    MedianKeepsBounds(runs, Cdf(y), 0.0, 1.0);
  }
}
