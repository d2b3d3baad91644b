/** truncate_and_pad_data and truncate_and_pad_playback_prob (scripts/plot_bitrate_playback.py, 1495-1654):
    one function, they differ only in the value that fills the gaps. */
module TruncatePad {
  import opened Wrappers
  import opened Reals
  import opened Trace
  import Grid

  type Curve = seq<Sample<real>>

  // ---------- The function ----------

  /** The two lists side by side, as far as both go. */
  function Zip(times: seq<real>, values: seq<real>): (c: Curve)
    ensures |c| == if |times| < |values| then |times| else |values|
    ensures forall i :: 0 <= i < |c| ==> c[i] == Sample(times[i], values[i])
  {
    seq(if |times| < |values| then |times| else |values|,
        i requires 0 <= i < |times| && i < |values| => Sample(times[i], values[i]))
  }

  function Filled(times: seq<real>, fill: real): (r: Curve)
    ensures |r| == |times| && forall i :: 0 <= i < |r| ==> r[i] == Sample(times[i], fill)
  {
    seq(|times|, i requires 0 <= i < |times| => Sample(times[i], fill))
  }

  /** The mask times <= max_time. */
  function Keep(data: Curve, maxTime: real): Curve {
    if |data| == 0 then []
    else Keep(data[..|data| - 1], maxTime) + if data[|data| - 1].time <= maxTime then [data[|data| - 1]] else []
  }

  /** The grid from `start` in steps of the bin, up to max_time. */
  function PadGrid(start: real, maxTime: real, timeBin: real, fill: real): Curve
    requires timeBin > 0.0
  {
    Keep(Filled(Grid.Arange(start, maxTime + timeBin, timeBin), fill), maxTime)
  }

  function PadStart(last: real, timeBin: real): real
    requires timeBin > 0.0
  {
    Times(((last / timeBin).Floor + 1) as real, timeBin)
  }

  function FrontPad(first: real, timeBin: real, fill: real): Curve
    requires timeBin > 0.0
  {
    if first > 0.0 then Filled(Grid.Arange(0.0, first, timeBin), fill) else []
  }

  function BackPad(last: real, maxTime: real, timeBin: real, fill: real): Curve
    requires timeBin > 0.0
  {
    var start := PadStart(last, timeBin);
    if last < maxTime && start <= maxTime then PadGrid(start, maxTime, timeBin, fill) else []
  }

  function EndAt(curve: Curve, maxTime: real, fill: real): Curve
    requires |curve| > 0
  {
    if curve[|curve| - 1].time < maxTime then curve + [Sample(maxTime, fill)] else curve
  }

  function TruncateAndPad(data: Curve, maxTime: real, timeBin: real, fill: real): Curve
    requires timeBin > 0.0
  {
    var kept := Keep(data, maxTime);
    if |kept| == 0 then PadGrid(0.0, maxTime, timeBin, fill)
    else
      var front := FrontPad(kept[0].time, timeBin, fill) + kept;
      EndAt(front + BackPad(front[|front| - 1].time, maxTime, timeBin, fill), maxTime, fill)
  }

  /** The function as called: absent lists count as empty ones, and the longer list is cut to the shorter. */
  function TruncateAndPadLists(times: Option<seq<real>>, values: Option<seq<real>>,
                               maxTime: real, timeBin: real, fill: real): Curve
    requires timeBin > 0.0
  {
    if times.None? || values.None? then PadGrid(0.0, maxTime, timeBin, fill)
    else TruncateAndPad(Zip(times.value, values.value), maxTime, timeBin, fill)
  }

  /** truncate_and_pad_data with fill 0, truncate_and_pad_playback_prob with fill 1. */
  method TruncateAndPadData(times: Option<seq<real>>, values: Option<seq<real>>,
                            maxTime: real, timeBin: real, fill: real) returns (curve: Curve)
    requires timeBin > 0.0
    ensures curve == TruncateAndPadLists(times, values, maxTime, timeBin, fill)
  {
    if times.None? || values.None? {
      return PadGrid(0.0, maxTime, timeBin, fill);
    }
    curve := Keep(Zip(times.value, values.value), maxTime);
    if |curve| == 0 {
      return PadGrid(0.0, maxTime, timeBin, fill);
    }
    if curve[0].time > 0.0 {
      curve := FrontPad(curve[0].time, timeBin, fill) + curve;
    }
    var last := curve[|curve| - 1].time;
    if last < maxTime {
      var start := PadStart(last, timeBin);
      if start <= maxTime {
        curve := curve + PadGrid(start, maxTime, timeBin, fill);
      }
    }
    if curve[|curve| - 1].time < maxTime {
      curve := curve + [Sample(maxTime, fill)];
    }
  }

  // ---------- Curves ----------

  ghost predicate Increasing(c: Curve) {
    forall i, j :: 0 <= i < j < |c| ==> c[i].time < c[j].time
  }

  /** Neighbours are at most `gap` apart. */
  ghost predicate Dense(c: Curve, gap: real) {
    forall i :: 0 < i < |c| ==> c[i].time - c[i - 1].time <= gap
  }

  ghost predicate AllFill(c: Curve, fill: real) {
    forall i :: 0 <= i < |c| ==> c[i].value == fill
  }

  /** The mask cuts an increasing curve at a point. */
  lemma {:induction false} KeepIsPrefix(c: Curve, maxTime: real) returns (n: nat)
    requires Increasing(c)
    ensures n <= |c| && Keep(c, maxTime) == c[..n]
    ensures n > 0 ==> c[n - 1].time <= maxTime
    ensures n < |c| ==> maxTime < c[n].time
  {
    if |c| == 0 {
      n := 0;
    } else {
      var front := c[..|c| - 1];
      n := KeepIsPrefix(front, maxTime);
      if c[|c| - 1].time <= maxTime {
        assert forall j :: 0 <= j < |front| ==> front[j].time <= maxTime;
        assert front[..|front|] == front;
        n := |c|;
        assert c[..n] == front + [c[|c| - 1]];
      } else {
        assert front[..n] == c[..n];
      }
    }
  }

  lemma KeepAll(c: Curve, maxTime: real)
    requires Increasing(c) && (|c| > 0 ==> c[|c| - 1].time <= maxTime)
    ensures Keep(c, maxTime) == c
  {
    assert forall j :: 0 <= j < |c| ==> c[j].time <= maxTime;
    var n := KeepIsPrefix(c, maxTime);
    assert c[..|c|] == c;
  }

  // ---------- The padding ----------

  /** A filled grid from `start` to before `end`. */
  lemma FilledGrid(start: real, end: real, timeBin: real, fill: real)
    requires timeBin > 0.0 && start < end
    ensures var g := Filled(Grid.Arange(start, end, timeBin), fill);
            && |g| > 0 && g[0].time == start && g[|g| - 1].time < end <= g[|g| - 1].time + timeBin
            && Increasing(g) && Dense(g, timeBin) && AllFill(g, fill)
            && (forall i :: 0 <= i < |g| ==> g[i].time == start + Times(i as real, timeBin))
  {
    var edges := Grid.Arange(start, end, timeBin);
    OneTimes(timeBin);
    Grid.ArangeStopsAtEnd(start, end, timeBin, 0);
    Grid.ArangeIncreases(start, end, timeBin);
    var n := |edges|;
    Grid.ArangeStopsAtEnd(start, end, timeBin, n - 1);
    Grid.ArangeStopsAtEnd(start, end, timeBin, n);
    OneMore((n - 1) as real, n as real, timeBin);
    forall i | 0 < i < n ensures edges[i] == edges[i - 1] + timeBin {
      Grid.ArangeStep(start, end, timeBin, i - 1);
    }
  }

  lemma FrontPadFits(first: real, timeBin: real, fill: real)
    requires timeBin > 0.0 && first > 0.0
    ensures var f := FrontPad(first, timeBin, fill);
            && |f| > 0 && f[0].time == 0.0 && f[|f| - 1].time < first <= f[|f| - 1].time + timeBin
            && Increasing(f) && Dense(f, timeBin) && AllFill(f, fill)
  {
    FilledGrid(0.0, first, timeBin, fill);
  }

  lemma PadGridFits(start: real, maxTime: real, timeBin: real, fill: real)
    requires timeBin > 0.0 && start <= maxTime
    ensures var g := PadGrid(start, maxTime, timeBin, fill);
            && |g| > 0 && g[0].time == start && g[|g| - 1].time <= maxTime < g[|g| - 1].time + timeBin
            && Increasing(g) && Dense(g, timeBin) && AllFill(g, fill)
            && g[|g| - 1].time == start + Times((|g| - 1) as real, timeBin)
  {
    FilledGrid(start, maxTime + timeBin, timeBin, fill);
    var all := Filled(Grid.Arange(start, maxTime + timeBin, timeBin), fill);
    CutGridFits(all, maxTime, timeBin, fill);
    var m := KeepIsPrefix(all, maxTime);
    assert PadGrid(start, maxTime, timeBin, fill)[m - 1] == all[m - 1];
  }

  lemma CutGridFits(all: Curve, maxTime: real, timeBin: real, fill: real)
    requires |all| > 0 && Increasing(all) && Dense(all, timeBin) && AllFill(all, fill)
    requires timeBin > 0.0 && all[0].time <= maxTime < all[|all| - 1].time + timeBin
    ensures var g := Keep(all, maxTime);
            && 0 < |g| <= |all| && (forall i :: 0 <= i < |g| ==> g[i] == all[i])
            && g[|g| - 1].time <= maxTime < g[|g| - 1].time + timeBin
            && Increasing(g) && Dense(g, timeBin) && AllFill(g, fill)
  {
    var m := KeepIsPrefix(all, maxTime);
    if m < |all| {
      assert all[m].time - all[m - 1].time <= timeBin;
    }
  }

  lemma PadStartFollows(last: real, timeBin: real)
    requires timeBin > 0.0
    ensures last < PadStart(last, timeBin) <= last + timeBin
  {
    var q := last / timeBin;
    Grid.QuotientTimes(last, timeBin);
    ScaleStrict(q, (q.Floor + 1) as real, timeBin);
    ScaleMonotone((q.Floor + 1) as real, q + 1.0, timeBin);
    OneMore(q, q + 1.0, timeBin);
  }

  /** What comes after a sample at `last`: the grid, and the end point where the grid misses it. */
  function Tail(last: real, grid: Curve, maxTime: real, fill: real): Curve {
    if (if |grid| > 0 then grid[|grid| - 1].time else last) < maxTime then grid + [Sample(maxTime, fill)] else grid
  }

  function TailPad(last: real, maxTime: real, timeBin: real, fill: real): Curve
    requires timeBin > 0.0
  {
    Tail(last, BackPad(last, maxTime, timeBin, fill), maxTime, fill)
  }

  lemma TailPadFits(last: Sample<real>, maxTime: real, timeBin: real, fill: real)
    requires timeBin > 0.0 && last.time <= maxTime
    ensures var t := TailPad(last.time, maxTime, timeBin, fill);
            && Increasing([last] + t) && Dense([last] + t, timeBin) && AllFill(t, fill)
            && ([last] + t)[|t|].time == maxTime
  {
    PadStartFollows(last.time, timeBin);
    var start := PadStart(last.time, timeBin);
    if last.time < maxTime && start <= maxTime {
      PadGridFits(start, maxTime, timeBin, fill);
    }
    TailFits(last, BackPad(last.time, maxTime, timeBin, fill), maxTime, timeBin, fill);
  }

  lemma TailFits(last: Sample<real>, grid: Curve, maxTime: real, timeBin: real, fill: real)
    requires last.time <= maxTime && Increasing(grid) && Dense(grid, timeBin) && AllFill(grid, fill)
    requires |grid| > 0 ==> last.time < grid[0].time <= last.time + timeBin
    requires (if |grid| > 0 then grid[|grid| - 1].time else last.time) <= maxTime
    requires maxTime <= (if |grid| > 0 then grid[|grid| - 1].time else last.time) + timeBin
    ensures var t := Tail(last.time, grid, maxTime, fill);
            && Increasing([last] + t) && Dense([last] + t, timeBin) && AllFill(t, fill)
            && ([last] + t)[|t|].time == maxTime
  {
    var body := [last] + grid;
    if |grid| > 0 {
      JoinFits([last], grid, timeBin);
    } else {
      assert body == [last];
    }
    EndFits(body, maxTime, timeBin, fill);
    TailIsEnd(last, grid, maxTime, fill);
  }

  lemma TailIsEnd(last: Sample<real>, grid: Curve, maxTime: real, fill: real)
    ensures [last] + Tail(last.time, grid, maxTime, fill) == EndAt([last] + grid, maxTime, fill)
    ensures AllFill(grid, fill) ==> AllFill(Tail(last.time, grid, maxTime, fill), fill)
  {
    assert [last] + (grid + [Sample(maxTime, fill)]) == ([last] + grid) + [Sample(maxTime, fill)];
  }

  lemma EndFits(body: Curve, maxTime: real, timeBin: real, fill: real)
    requires |body| > 0 && Increasing(body) && Dense(body, timeBin)
    requires body[|body| - 1].time <= maxTime <= body[|body| - 1].time + timeBin
    ensures var c := EndAt(body, maxTime, fill);
            Increasing(c) && Dense(c, timeBin) && c[|c| - 1].time == maxTime
  {
    if body[|body| - 1].time < maxTime {
      JoinFits(body, [Sample(maxTime, fill)], timeBin);
    }
  }

  lemma JoinFits(a: Curve, b: Curve, gap: real)
    requires |a| > 0 && |b| > 0 && Increasing(a) && Increasing(b)
    requires a[|a| - 1].time < b[0].time
    ensures Increasing(a + b)
    ensures Dense(a, gap) && Dense(b, gap) && b[0].time - a[|a| - 1].time <= gap ==> Dense(a + b, gap)
  {
    var c := a + b;
    forall i, j | 0 <= i < j < |c| ensures c[i].time < c[j].time {
      if i < |a| && j >= |a| {
        assert a[i].time <= a[|a| - 1].time && b[0].time <= b[j - |a|].time;
      }
    }
  }

  /** Truncating and padding in closed form: front padding, kept samples, tail padding. */
  lemma ThreeParts(data: Curve, maxTime: real, timeBin: real, fill: real)
    requires timeBin > 0.0 && |Keep(data, maxTime)| > 0
    ensures var kept := Keep(data, maxTime);
            TruncateAndPad(data, maxTime, timeBin, fill) ==
              FrontPad(kept[0].time, timeBin, fill) + kept + TailPad(kept[|kept| - 1].time, maxTime, timeBin, fill)
  {
    var kept := Keep(data, maxTime);
    var last := kept[|kept| - 1].time;
    EndAtTail(FrontPad(kept[0].time, timeBin, fill), kept, BackPad(last, maxTime, timeBin, fill), maxTime, fill);
  }

  lemma EndAtTail(front: Curve, kept: Curve, grid: Curve, maxTime: real, fill: real)
    requires |kept| > 0
    ensures (front + kept)[|front + kept| - 1] == kept[|kept| - 1]
    ensures EndAt((front + kept) + grid, maxTime, fill) ==
            front + kept + Tail(kept[|kept| - 1].time, grid, maxTime, fill)
  {
    assert (front + kept + grid) + [Sample(maxTime, fill)] == front + kept + (grid + [Sample(maxTime, fill)]);
  }

  /** `out` runs strictly increasing from exactly 0 to exactly max_time; it is the kept samples, unchanged and
      contiguous, between padding of fill values that leaves no gap above the bin size. */
  ghost predicate Fits(out: Curve, pre: Curve, kept: Curve, post: Curve, maxTime: real, timeBin: real, fill: real) {
    && |kept| > 0 && out == pre + kept + post
    && Increasing(out) && out[0].time == 0.0 && out[|out| - 1].time == maxTime
    && AllFill(pre, fill) && AllFill(post, fill)
    && Dense(pre + [kept[0]], timeBin) && Dense([kept[|kept| - 1]] + post, timeBin)
  }

  /** For strictly increasing, non-negative times with a sample up to max_time the result fits, around all the
      samples up to max_time and nothing else. */
  lemma TruncateAndPadFits(data: Curve, maxTime: real, timeBin: real, fill: real)
    returns (n: nat, pre: Curve, post: Curve)
    requires timeBin > 0.0 && Increasing(data) && |data| > 0 && 0.0 <= data[0].time <= maxTime
    ensures n <= |data| && forall i :: 0 <= i < |data| ==> (data[i].time <= maxTime <==> i < n)
    ensures Fits(TruncateAndPad(data, maxTime, timeBin, fill), pre, data[..n], post, maxTime, timeBin, fill)
  {
    n := KeepIsPrefix(data, maxTime);
    var kept := Keep(data, maxTime);
    CutAt(data, maxTime, n);
    ThreeParts(data, maxTime, timeBin, fill);
    var last := kept[|kept| - 1];
    TailPadFits(last, maxTime, timeBin, fill);
    if kept[0].time > 0.0 {
      FrontPadFits(kept[0].time, timeBin, fill);
    }
    pre, post := FrontPad(kept[0].time, timeBin, fill), TailPad(last.time, maxTime, timeBin, fill);
    PartsFit(pre, kept, post, maxTime, timeBin, fill);
  }

  lemma CutAt(data: Curve, maxTime: real, n: nat)
    requires Increasing(data) && n <= |data|
    requires (n > 0 ==> data[n - 1].time <= maxTime) && (n < |data| ==> maxTime < data[n].time)
    ensures forall i :: 0 <= i < |data| ==> (data[i].time <= maxTime <==> i < n)
  {
    assert forall i :: 0 <= i < n ==> data[i].time <= data[n - 1].time;
    assert n < |data| ==> forall i :: n <= i < |data| ==> data[n].time <= data[i].time;
  }

  lemma PartsFit(pre: Curve, kept: Curve, post: Curve, maxTime: real, timeBin: real, fill: real)
    requires |kept| > 0 && Increasing(kept) && Increasing(pre) && Dense(pre, timeBin)
    requires var rest := [kept[|kept| - 1]] + post;
             Increasing(rest) && Dense(rest, timeBin) && rest[|post|].time == maxTime
    requires |pre| > 0 ==> pre[|pre| - 1].time < kept[0].time <= pre[|pre| - 1].time + timeBin
    requires (if |pre| > 0 then pre[0] else kept[0]).time == 0.0
    requires AllFill(pre, fill) && AllFill(post, fill)
    ensures Fits(pre + kept + post, pre, kept, post, maxTime, timeBin, fill)
  {
    PreFits(pre, kept, timeBin);
    TailKeepsOrder(pre + kept, post);
    var out := pre + kept + post;
    assert out[|out| - 1] == ([kept[|kept| - 1]] + post)[|post|];
  }

  lemma PreFits(pre: Curve, kept: Curve, timeBin: real)
    requires |kept| > 0 && Increasing(kept) && Increasing(pre) && Dense(pre, timeBin)
    requires |pre| > 0 ==> pre[|pre| - 1].time < kept[0].time <= pre[|pre| - 1].time + timeBin
    ensures Increasing(pre + kept) && Dense(pre + [kept[0]], timeBin)
  {
    if |pre| > 0 {
      JoinFits(pre, kept, timeBin);
      JoinFits(pre, [kept[0]], timeBin);
    } else {
      assert pre + kept == kept;
    }
  }

  lemma TailKeepsOrder(body: Curve, post: Curve)
    requires |body| > 0 && Increasing(body) && Increasing([body[|body| - 1]] + post)
    ensures Increasing(body + post)
  {
    var last := [body[|body| - 1]];
    if |post| > 0 {
      assert (last + post)[0].time < (last + post)[1].time;
      assert forall i :: 0 <= i < |post| ==> post[i] == (last + post)[i + 1];
      JoinFits(body, post, 0.0);
    } else {
      assert body + post == body;
    }
  }

  /** A curve from 0 that stays within max_time is left alone exactly when it ends there. */
  lemma FixedPoints(c: Curve, maxTime: real, timeBin: real, fill: real)
    requires timeBin > 0.0 && Increasing(c) && |c| > 0 && c[0].time == 0.0 && c[|c| - 1].time <= maxTime
    ensures TruncateAndPad(c, maxTime, timeBin, fill) == c <==> c[|c| - 1].time == maxTime
  {
    KeepAll(c, maxTime);
    ThreeParts(c, maxTime, timeBin, fill);
    var last := c[|c| - 1];
    TailPadFits(last, maxTime, timeBin, fill);
    var post := TailPad(last.time, maxTime, timeBin, fill);
    assert FrontPad(0.0, timeBin, fill) + c + post == c + post;
    assert |post| == 0 ==> ([last] + post)[|post|] == last;
    assert c + post == c <==> |post| == 0;
  }

  /** Doing it twice changes nothing more. */
  lemma TruncateAndPadIdempotent(data: Curve, maxTime: real, timeBin: real, fill: real)
    requires timeBin > 0.0 && Increasing(data) && |data| > 0 && 0.0 <= data[0].time <= maxTime
    ensures var out := TruncateAndPad(data, maxTime, timeBin, fill);
            TruncateAndPad(out, maxTime, timeBin, fill) == out
  {
    var n, pre, post := TruncateAndPadFits(data, maxTime, timeBin, fill);
    FixedPoints(TruncateAndPad(data, maxTime, timeBin, fill), maxTime, timeBin, fill);
  }

  /** Without a sample up to max_time the result is the bare grid, which nobody extends to max_time: it ends
      there, and a second application leaves it alone, exactly when max_time is a whole number of bins. */
  lemma EmptyInputGrid(data: Curve, maxTime: real, timeBin: real, fill: real)
    requires timeBin > 0.0 && 0.0 <= maxTime && |Keep(data, maxTime)| == 0
    ensures var out := TruncateAndPad(data, maxTime, timeBin, fill);
            && |out| > 0 && Increasing(out) && AllFill(out, fill) && out[0].time == 0.0
            && (out[|out| - 1].time == maxTime <==> Grid.Whole(maxTime, timeBin))
            && (TruncateAndPad(out, maxTime, timeBin, fill) == out <==> Grid.Whole(maxTime, timeBin))
  {
    PadGridFits(0.0, maxTime, timeBin, fill);
    var out := PadGrid(0.0, maxTime, timeBin, fill);
    GridEnd(|out| - 1, maxTime, timeBin);
    FixedPoints(out, maxTime, timeBin, fill);
  }

  lemma GridEnd(n: nat, maxTime: real, timeBin: real)
    requires timeBin > 0.0 && Times(n as real, timeBin) <= maxTime < Times(n as real, timeBin) + timeBin
    ensures Times(n as real, timeBin) == maxTime <==> Grid.Whole(maxTime, timeBin)
  {
    var q := maxTime / timeBin;
    Grid.QuotientTimes(maxTime, timeBin);
    OneMore(n as real, (n + 1) as real, timeBin);
    ScaleOrder(n as real, q, timeBin);
    ScaleOrder((n + 1) as real, q, timeBin);
    assert q.Floor == n;
  }

  // ---------- Where the padding lies ----------

  lemma WholeBins(n: int, d: real)
    requires d > 0.0
    ensures Grid.Whole(Times(n as real, d), d)
  {
    var q := Times(n as real, d) / d;
    Grid.QuotientTimes(Times(n as real, d), d);
    ScaleOrder(q, n as real, d);
  }

  lemma FrontPadOnGrid(first: real, timeBin: real, fill: real, i: nat)
    requires timeBin > 0.0 && i < |FrontPad(first, timeBin, fill)|
    ensures Grid.Whole(FrontPad(first, timeBin, fill)[i].time, timeBin)
  {
    FilledGrid(0.0, first, timeBin, fill);
    assert FrontPad(first, timeBin, fill)[i].time == Times(i as real, timeBin);
    WholeBins(i, timeBin);
  }

  lemma PadGridTime(start: real, maxTime: real, timeBin: real, fill: real, i: nat)
    requires timeBin > 0.0 && start <= maxTime && i < |PadGrid(start, maxTime, timeBin, fill)|
    ensures PadGrid(start, maxTime, timeBin, fill)[i].time == start + Times(i as real, timeBin)
  {
    FilledGrid(start, maxTime + timeBin, timeBin, fill);
    var n := KeepIsPrefix(Filled(Grid.Arange(start, maxTime + timeBin, timeBin), fill), maxTime);
  }

  lemma BackPadOnGrid(last: real, maxTime: real, timeBin: real, fill: real, i: nat)
    requires timeBin > 0.0 && i < |BackPad(last, maxTime, timeBin, fill)|
    ensures Grid.Whole(BackPad(last, maxTime, timeBin, fill)[i].time, timeBin)
  {
    var k := (last / timeBin).Floor + 1;
    PadGridTime(PadStart(last, timeBin), maxTime, timeBin, fill, i);
    TimesAdds(k, i, timeBin);
    assert BackPad(last, maxTime, timeBin, fill)[i].time == Times((k + i) as real, timeBin);
    WholeBins(k + i, timeBin);
  }

  lemma TimesAdds(k: int, i: nat, d: real)
    ensures Times((k + i) as real, d) == Times(k as real, d) + Times(i as real, d)
  {
  }

  /** Nothing but samples and quantized padding: every point is a sample of the data, or has the fill value and lies
      on a whole number of bins or at max_time. */
  lemma PaddingOnGrid(data: Curve, maxTime: real, timeBin: real, fill: real, i: nat)
    requires timeBin > 0.0 && |Keep(data, maxTime)| > 0 && i < |TruncateAndPad(data, maxTime, timeBin, fill)|
    ensures var p := TruncateAndPad(data, maxTime, timeBin, fill)[i];
            p in Keep(data, maxTime) || (p.value == fill && (Grid.Whole(p.time, timeBin) || p.time == maxTime))
  {
    var kept := Keep(data, maxTime);
    var pre, last := FrontPad(kept[0].time, timeBin, fill), kept[|kept| - 1].time;
    ThreeParts(data, maxTime, timeBin, fill);
    if i < |pre| {
      FrontPadOnGrid(kept[0].time, timeBin, fill, i);
    } else if i >= |pre| + |kept| {
      TailPadOnGrid(last, maxTime, timeBin, fill, i - |pre| - |kept|);
    }
  }

  lemma TailPadOnGrid(last: real, maxTime: real, timeBin: real, fill: real, i: nat)
    requires timeBin > 0.0 && i < |TailPad(last, maxTime, timeBin, fill)|
    ensures var p := TailPad(last, maxTime, timeBin, fill)[i];
            p.value == fill && (Grid.Whole(p.time, timeBin) || p.time == maxTime)
  {
    if i < |BackPad(last, maxTime, timeBin, fill)| {
      BackPadOnGrid(last, maxTime, timeBin, fill, i);
      BackPadFills(last, maxTime, timeBin, fill, i);
    }
  }

  lemma BackPadFills(last: real, maxTime: real, timeBin: real, fill: real, i: nat)
    requires timeBin > 0.0 && i < |BackPad(last, maxTime, timeBin, fill)|
    ensures BackPad(last, maxTime, timeBin, fill)[i].value == fill
  {
    PadGridFits(PadStart(last, timeBin), maxTime, timeBin, fill);
  }

  /** The lists as they are given: sample i is kept as (times[i], values[i]), up to the end of the shorter list. */
  lemma ListsFit(times: seq<real>, values: seq<real>, maxTime: real, timeBin: real, fill: real)
    returns (n: nat, kept: Curve, pre: Curve, post: Curve)
    requires timeBin > 0.0 && |times| > 0 && |values| > 0 && 0.0 <= times[0] <= maxTime
    requires forall i, j :: 0 <= i < j < |times| ==> times[i] < times[j]
    ensures n <= |times| && n <= |values| && |kept| == n
    ensures forall i :: 0 <= i < n ==> kept[i] == Sample(times[i], values[i])
    ensures forall i :: 0 <= i < |times| && i < |values| ==> (times[i] <= maxTime <==> i < n)
    ensures Fits(TruncateAndPadLists(Some(times), Some(values), maxTime, timeBin, fill),
                 pre, kept, post, maxTime, timeBin, fill)
  {
    var data := Zip(times, values);
    n, pre, post := TruncateAndPadFits(data, maxTime, timeBin, fill);
    kept := data[..n];
  }
}
