/** One-cursor binning of a trace (scripts/plot_bitrate_playback.py, 1091-1134). */
module Binning {
  import opened Reals
  import opened Trace
  import opened Cursors
  import opened Selection
  import Grid

  // ---------- The naive sums ----------

  /** The bytes of the samples in the half-open bin [lo, hi). */
  function BytesIn(samples: seq<Sample<nat>>, lo: real, hi: real): nat {
    if |samples| == 0 then 0
    else
      var s := samples[|samples| - 1];
      BytesIn(samples[..|samples| - 1], lo, hi) + if lo <= s.time < hi then s.value else 0
  }

  /** The bytes of the samples strictly before v. */
  function BytesBefore(samples: seq<Sample<nat>>, v: real): nat {
    if |samples| == 0 then 0
    else
      var s := samples[|samples| - 1];
      BytesBefore(samples[..|samples| - 1], v) + if s.time < v then s.value else 0
  }

  function Bytes(samples: seq<Sample<nat>>): nat {
    if |samples| == 0 then 0 else Bytes(samples[..|samples| - 1]) + samples[|samples| - 1].value
  }

  lemma {:induction false} BinIsDifference(samples: seq<Sample<nat>>, lo: real, hi: real)
    requires lo <= hi
    ensures BytesBefore(samples, lo) + BytesIn(samples, lo, hi) == BytesBefore(samples, hi)
  {
    if |samples| == 0 {
    } else {
      BinIsDifference(samples[..|samples| - 1], lo, hi);
    }
  }

  /** The cursor has passed exactly the samples strictly before v. */
  ghost predicate Passed<V>(samples: seq<Sample<V>>, idx: nat, v: real) {
    && idx <= |samples|
    && (idx > 0 ==> samples[idx - 1].time < v)
    && (idx < |samples| ==> v <= samples[idx].time)
  }

  lemma {:induction false} AllBefore(samples: seq<Sample<nat>>, v: real)
    requires forall i :: 0 <= i < |samples| ==> samples[i].time < v
    ensures BytesBefore(samples, v) == Bytes(samples)
  {
    if |samples| == 0 {
    } else {
      AllBefore(samples[..|samples| - 1], v);
    }
  }

  lemma {:induction false} CutBefore(samples: seq<Sample<nat>>, idx: nat, v: real)
    requires idx <= |samples| && forall j :: idx <= j < |samples| ==> v <= samples[j].time
    ensures BytesBefore(samples, v) == BytesBefore(samples[..idx], v)
  {
    if idx == |samples| {
      assert samples[..idx] == samples;
    } else {
      var front := samples[..|samples| - 1];
      assert front[..idx] == samples[..idx];
      CutBefore(front, idx, v);
    }
  }

  lemma PassedCounts(samples: seq<Sample<nat>>, idx: nat, v: real)
    requires InTimeOrder(samples) && Passed(samples, idx, v)
    ensures BytesBefore(samples, v) == Bytes(samples[..idx])
  {
    forall j | idx <= j < |samples| ensures v <= samples[j].time {
      assert idx < j ==> samples[idx].time <= samples[j].time;
    }
    forall j | 0 <= j < idx ensures samples[..idx][j].time < v {
      assert j < idx - 1 ==> samples[j].time <= samples[idx - 1].time;
    }
    CutBefore(samples, idx, v);
    AllBefore(samples[..idx], v);
  }

  // ---------- The loops ----------

  /** The inner loop: one bin's bytes, moving the cursor to the bin's end. */
  method SumBin(samples: seq<Sample<nat>>, start: nat, lo: real, hi: real) returns (total: nat, idx: nat)
    requires InTimeOrder(samples) && Passed(samples, start, lo) && lo <= hi
    ensures Passed(samples, idx, hi) && total == BytesIn(samples, lo, hi)
  {
    total, idx := 0, start;
    while idx < |samples| && samples[idx].time < hi
      invariant start <= idx <= |samples|
      invariant idx > start ==> samples[idx - 1].time < hi
      invariant total + Bytes(samples[..start]) == Bytes(samples[..idx])
    {
      assert samples[start].time <= samples[idx].time;
      if samples[idx].time >= lo {
        total := total + samples[idx].value;
      }
      assert samples[..idx + 1][..idx] == samples[..idx];
      idx := idx + 1;
    }
    PassedCounts(samples, start, lo);
    PassedCounts(samples, idx, hi);
    BinIsDifference(samples, lo, hi);
  }

  /** Kilobits per second of a bin. */
  function Rate(bytes: nat, interval: real): real
    requires interval > 0.0
  {
    (bytes * 8) as real / (interval * 1000.0)
  }

  /** The series over the first n bins: the non-empty ones, with their centre and rate. */
  function RateSeries(samples: seq<Sample<nat>>, edges: seq<real>, n: nat, interval: real): seq<(real, real)>
    requires n < |edges| && interval > 0.0
  {
    if n == 0 then []
    else
      var bytes := BytesIn(samples, edges[n - 1], edges[n]);
      RateSeries(samples, edges, n - 1, interval)
        + if bytes > 0 then [(edges[n - 1] + interval / 2.0, Rate(bytes, interval))] else []
  }

  function Edges<V>(samples: seq<Sample<V>>, interval: real): (edges: seq<real>)
    requires |samples| > 0 && interval > 0.0
  {
    Grid.Arange(samples[0].time, samples[|samples| - 1].time + interval, interval)
  }

  /** Increasing edges that start at the first sample. */
  ghost predicate Covers<V>(samples: seq<Sample<V>>, edges: seq<real>)
    requires |samples| > 0
  {
    && |edges| > 0 && edges[0] == samples[0].time
    && forall i, j :: 0 <= i < j < |edges| ==> edges[i] < edges[j]
  }

  lemma EdgesCover<V>(samples: seq<Sample<V>>, interval: real)
    requires |samples| > 0 && interval > 0.0 && InTimeOrder(samples)
    ensures Covers(samples, Edges(samples, interval))
  {
    var a, b := samples[0].time, samples[|samples| - 1].time + interval;
    assert 0 < |samples| - 1 ==> samples[0].time <= samples[|samples| - 1].time;
    Grid.ArangeStopsAtEnd(a, b, interval, 0);
    OneTimes(interval);
    Grid.ArangeIncreases(a, b, interval);
  }

  /** The outer loop: a single pass over the samples gives every bin its naive sum. */
  method BinRates(samples: seq<Sample<nat>>, edges: seq<real>, interval: real) returns (series: seq<(real, real)>)
    requires interval > 0.0 && |samples| > 0 && InTimeOrder(samples) && Covers(samples, edges)
    ensures series == RateSeries(samples, edges, |edges| - 1, interval)
  {
    series := [];
    var idx := 0;
    for i := 0 to |edges| - 1
      invariant Passed(samples, idx, edges[i])
      invariant series == RateSeries(samples, edges, i, interval)
    {
      var total, next := SumBin(samples, idx, edges[i], edges[i + 1]);
      idx := next;
      if total > 0 {
        series := series + [(edges[i] + interval / 2.0, Rate(total, interval))];
      }
    }
  }

  /** calculate_data_rate_kbps. */
  method DataRateKbps(rxData: seq<Sample<nat>>, interval: real) returns (series: seq<(real, real)>)
    requires interval > 0.0
    ensures |rxData| == 0 ==> series == []
    ensures |rxData| > 0 ==> var edges := Edges(InOrder(rxData), interval);
              |edges| > 0 && series == RateSeries(InOrder(rxData), edges, |edges| - 1, interval)
  {
    series := [];
    if |rxData| > 0 {
      var samples := InOrder(rxData);
      InOrderIsOrdered(rxData);
      EdgesCover(samples, interval);
      series := BinRates(samples, Edges(samples, interval), interval);
    }
  }

  // ---------- Conservation ----------

  /** The bytes of the first n bins together. */
  function BinnedBytes(samples: seq<Sample<nat>>, edges: seq<real>, n: nat): nat
    requires n < |edges|
  {
    if n == 0 then 0 else BinnedBytes(samples, edges, n - 1) + BytesIn(samples, edges[n - 1], edges[n])
  }

  lemma {:induction false} BinsTelescope(samples: seq<Sample<nat>>, edges: seq<real>, n: nat)
    requires n < |edges| && forall i, j :: 0 <= i < j < |edges| ==> edges[i] < edges[j]
    ensures BytesBefore(samples, edges[0]) + BinnedBytes(samples, edges, n) == BytesBefore(samples, edges[n])
  {
    if n == 0 {
    } else {
      BinsTelescope(samples, edges, n - 1);
      BinIsDifference(samples, edges[n - 1], edges[n]);
    }
  }

  lemma {:induction false} NothingBeforeFirst(samples: seq<Sample<nat>>, v: real)
    requires forall i :: 0 <= i < |samples| ==> v <= samples[i].time
    ensures BytesBefore(samples, v) == 0
  {
    if |samples| == 0 {
    } else {
      NothingBeforeFirst(samples[..|samples| - 1], v);
    }
  }

  lemma CoveringBinsHoldAll(samples: seq<Sample<nat>>, edges: seq<real>)
    requires |samples| > 0 && InTimeOrder(samples) && Covers(samples, edges)
    ensures BinnedBytes(samples, edges, |edges| - 1) == BytesBefore(samples, edges[|edges| - 1])
  {
    BinsTelescope(samples, edges, |edges| - 1);
    forall i | 0 <= i < |samples| ensures edges[0] <= samples[i].time {
      assert 0 < i ==> samples[0].time <= samples[i].time;
    }
    NothingBeforeFirst(samples, edges[0]);
  }

  /** All bins together hold exactly the bytes of the samples strictly before the last edge. */
  lemma BinsHoldAllBeforeLastEdge(rxData: seq<Sample<nat>>, interval: real)
    requires |rxData| > 0 && interval > 0.0
    ensures var samples := InOrder(rxData); var edges := Edges(samples, interval);
            |edges| > 0 && BinnedBytes(samples, edges, |edges| - 1) == BytesBefore(samples, edges[|edges| - 1])
  {
    InOrderIsOrdered(rxData);
    EdgesCover(InOrder(rxData), interval);
    CoveringBinsHoldAll(InOrder(rxData), Edges(InOrder(rxData), interval));
  }

  /** The span of the trace is a whole number of intervals. */
  predicate WholeSpan(samples: seq<Sample<nat>>, interval: real)
    requires |samples| > 0 && interval > 0.0
  {
    Grid.Whole(samples[|samples| - 1].time - samples[0].time, interval)
  }

  /** The last edge is the maximum time when the span is a whole number of intervals, and beyond it otherwise. */
  lemma LastEdge(samples: seq<Sample<nat>>, interval: real)
    requires |samples| > 0 && interval > 0.0 && InTimeOrder(samples)
    ensures var edges := Edges(samples, interval);
            && |edges| > 0 && samples[|samples| - 1].time <= edges[|edges| - 1]
            && (edges[|edges| - 1] == samples[|samples| - 1].time <==> WholeSpan(samples, interval))
  {
    assert 0 < |samples| - 1 ==> samples[0].time <= samples[|samples| - 1].time;
    Grid.LastStep(samples[0].time, samples[|samples| - 1].time, interval);
  }

  lemma {:induction false} BeforeAndAt(samples: seq<Sample<nat>>, v: real)
    requires forall i :: 0 <= i < |samples| ==> samples[i].time <= v
    ensures BytesBefore(samples, v) + BytesAt(samples, v) == Bytes(samples)
  {
    if |samples| == 0 {
    } else {
      BeforeAndAt(samples[..|samples| - 1], v);
    }
  }

  function BytesAt(samples: seq<Sample<nat>>, t: real): nat {
    if |samples| == 0 then 0
    else
      var last := samples[|samples| - 1];
      BytesAt(samples[..|samples| - 1], t) + if last.time == t then last.value else 0
  }

  /** What the binning loses: the samples at the maximum time, exactly when the span of the trace is a whole
      number of intervals; otherwise nothing. */
  lemma OnlyLastInstantDropped(rxData: seq<Sample<nat>>, interval: real)
    requires |rxData| > 0 && interval > 0.0
    ensures var samples := InOrder(rxData); var edges := Edges(samples, interval);
            |edges| > 0 &&
            BinnedBytes(samples, edges, |edges| - 1)
              + (if WholeSpan(samples, interval) then BytesAt(samples, samples[|samples| - 1].time) else 0)
            == Bytes(samples)
  {
    var samples := InOrder(rxData);
    InOrderIsOrdered(rxData);
    BinsHoldAllBeforeLastEdge(rxData, interval);
    LastEdge(samples, interval);
    var edges := Edges(samples, interval);
    CutAtEdge(samples, edges[|edges| - 1]);
  }

  lemma CutAtEdge(samples: seq<Sample<nat>>, edge: real)
    requires |samples| > 0 && InTimeOrder(samples) && samples[|samples| - 1].time <= edge
    ensures var m := samples[|samples| - 1].time;
            BytesBefore(samples, edge) + (if edge == m then BytesAt(samples, m) else 0) == Bytes(samples)
  {
    var m := samples[|samples| - 1].time;
    forall i | 0 <= i < |samples| ensures samples[i].time <= m {
      assert i < |samples| - 1 ==> samples[i].time <= samples[|samples| - 1].time;
    }
    if edge == m {
      BeforeAndAt(samples, m);
    } else {
      AllBefore(samples, edge);
    }
  }

  // ---------- Hold-last ----------

  /** The value of the last sample strictly before v; there is one as soon as v is past the first sample. */
  function LastBefore(samples: seq<Sample<real>>, v: real): real {
    var last := LastPassed(samples, Before(v));
    if last.Some? then last.value.value else 0.0
  }

  lemma PassedHolds(samples: seq<Sample<real>>, idx: nat, v: real)
    requires InTimeOrder(samples) && Passed(samples, idx, v) && idx > 0
    ensures LastBefore(samples, v) == samples[idx - 1].value
  {
    forall j | idx <= j < |samples| ensures !Before(v)(samples[j]) {
      assert idx < j ==> samples[idx].time <= samples[j].time;
    }
    CursorReads(samples, Before(v), idx);
  }

  /** The inner loop: moves the cursor to the bin's end and takes the last value passed in the bin. */
  method HoldBin(samples: seq<Sample<real>>, start: nat, held: real, lo: real, hi: real)
    returns (idx: nat, lastVal: real)
    requires InTimeOrder(samples) && Passed(samples, start, lo) && lo <= hi
    requires start > 0 ==> held == samples[start - 1].value
    ensures Passed(samples, idx, hi) && (idx > 0 ==> lastVal == samples[idx - 1].value)
  {
    idx, lastVal := start, held;
    while idx < |samples| && samples[idx].time < hi
      invariant start <= idx <= |samples|
      invariant idx > 0 ==> samples[idx - 1].time < hi && lastVal == samples[idx - 1].value
    {
      assert start < idx ==> samples[start].time <= samples[idx].time;
      if samples[idx].time >= lo {
        lastVal := samples[idx].value;
      }
      idx := idx + 1;
    }
  }

  method HoldBins(samples: seq<Sample<real>>, edges: seq<real>, interval: real) returns (series: seq<(real, real)>)
    requires |samples| > 0 && InTimeOrder(samples) && Covers(samples, edges)
    ensures |series| + 1 == |edges|
    ensures forall i :: 0 <= i < |series| ==>
              series[i].0 == edges[i] + interval / 2.0 && series[i].1 == LastBefore(samples, edges[i + 1])
  {
    series := [];
    var idx, lastVal := 0, 0.0;
    for i := 0 to |edges| - 1
      invariant Passed(samples, idx, edges[i])
      invariant |series| == i && (idx > 0 ==> lastVal == samples[idx - 1].value)
      invariant forall k :: 0 <= k < i ==>
                  series[k].0 == edges[k] + interval / 2.0 && series[k].1 == LastBefore(samples, edges[k + 1])
    {
      idx, lastVal := HoldBin(samples, idx, lastVal, edges[i], edges[i + 1]);
      assert idx > 0 by {
        assert samples[0].time == edges[0] < edges[i + 1];
      }
      PassedHolds(samples, idx, edges[i + 1]);
      series := series + [(edges[i] + interval / 2.0, lastVal)];
    }
  }

  /** calculate_value_over_time: every bin shows the last value sampled before the bin's end. */
  method ValueOverTime(data: seq<Sample<real>>, interval: real) returns (series: seq<(real, real)>)
    requires interval > 0.0
    ensures |data| == 0 ==> series == []
    ensures |data| > 0 ==> var edges := Edges(InOrder(data), interval);
              && |series| + 1 == |edges|
              && forall i :: 0 <= i < |series| ==>
                   series[i].0 == edges[i] + interval / 2.0 && series[i].1 == LastBefore(InOrder(data), edges[i + 1])
  {
    series := [];
    if |data| > 0 {
      var samples := InOrder(data);
      InOrderIsOrdered(data);
      EdgesCover(samples, interval);
      series := HoldBins(samples, Edges(samples, interval), interval);
    }
  }

  // ---------- What the returned lists say ----------

  /** Bin i is not empty, and (time, rate) is its centre and its bytes as kilobits per second. */
  ghost predicate IsBinRate(samples: seq<Sample<nat>>, edges: seq<real>, interval: real, i: int, p: (real, real)) {
    && 0 <= i < |edges| - 1 && BytesIn(samples, edges[i], edges[i + 1]) > 0
    && p.0 == edges[i] + interval / 2.0
    && Times(p.1, interval * 1000.0) == (8 * BytesIn(samples, edges[i], edges[i + 1])) as real
  }

  lemma RateIsExact(samples: seq<Sample<nat>>, edges: seq<real>, interval: real, i: nat)
    requires interval > 0.0 && i + 1 < |edges| && BytesIn(samples, edges[i], edges[i + 1]) > 0
    ensures IsBinRate(samples, edges, interval, i,
                      (edges[i] + interval / 2.0, Rate(BytesIn(samples, edges[i], edges[i + 1]), interval)))
  {
    var b, d := (BytesIn(samples, edges[i], edges[i + 1]) * 8) as real, interval * 1000.0;
    assert Times(b / d, d) == b;
  }

  ghost function NonEmptyBin(samples: seq<Sample<nat>>, edges: seq<real>): int -> bool {
    (i: int) => 0 <= i < |edges| - 1 && BytesIn(samples, edges[i], edges[i + 1]) > 0
  }

  ghost function BinRate(samples: seq<Sample<nat>>, edges: seq<real>, interval: real): (int, (real, real)) -> bool {
    (i: int, p: (real, real)) => IsBinRate(samples, edges, interval, i, p)
  }

  /** The series has exactly one point for each non-empty bin, in order: its centre and its rate. */
  lemma {:induction false} RatesOfBins(samples: seq<Sample<nat>>, edges: seq<real>, n: nat, interval: real)
    requires n < |edges| && interval > 0.0
    ensures Selects(RateSeries(samples, edges, n, interval), Indices(n),
                    NonEmptyBin(samples, edges), BinRate(samples, edges, interval))
  {
    if n == 0 {
    } else {
      var i, bytes := n - 1, BytesIn(samples, edges[n - 1], edges[n]);
      RatesOfBins(samples, edges, i, interval);
      var more := if bytes > 0 then [(edges[i] + interval / 2.0, Rate(bytes, interval))] else [];
      if bytes > 0 {
        RateIsExact(samples, edges, interval, i);
      }
      OneMoreSelected(RateSeries(samples, edges, i, interval), Indices(i), more, i,
                      NonEmptyBin(samples, edges), BinRate(samples, edges, interval));
    }
  }

  /** Sample k is the last one strictly before v. */
  ghost predicate IsLastBefore(samples: seq<Sample<real>>, v: real, k: nat) {
    k < |samples| && samples[k].time < v && forall j :: k < j < |samples| ==> v <= samples[j].time
  }

  /** The value held is that of the last sample strictly before v. */
  lemma {:induction false} HeldIsLast(samples: seq<Sample<real>>, v: real, k: nat)
    requires IsLastBefore(samples, v, k)
    ensures LastBefore(samples, v) == samples[k].value
  {
    assert forall j :: k + 1 <= j < |samples| ==> !Before(v)(samples[j]);
    CursorReads(samples, Before(v), k + 1);
  }
}
