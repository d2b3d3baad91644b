/** The other views of playback - the timeline, the swept state series, the point query, the metrics - and
    the proof that they agree with the accumulated statistics. */
module PlaybackViews {
  import opened Wrappers
  import opened Sorting
  import opened Cursors
  import opened Playback
  import Grid

  // ---------- create_playback_timeline ----------

  datatype Span = Span(start: real, end: real, mode: Mode, resolution: Option<string>)

  /** The variables of the loop; period_start is None exactly while the status is. */
  datatype Timeline = Timeline(open: Segment, resolution: Option<string>, spans: seq<Span>)

  function EndSpan(a: Timeline, t: real): Timeline {
    match a.open
    case NoSegment => a
    case Open(mode, s) => a.(spans := a.spans + [Span(s, t, mode, a.resolution)])
  }

  function OnTimelineEvent(a: Timeline, e: Event): Timeline {
    var ended := match e.kind
      case Interrupted => if a.open.Open? && a.open.mode == Play then EndSpan(a, e.time) else a
      case _ => if a.open.Open? && a.open.mode == Stall then EndSpan(a, e.time) else a;
    match e.kind
    case Playing =>
      ended.(open := if a.open.Open? && a.open.mode == Play then a.open else Open(Play, e.time),
             resolution := Some(e.resolution))
    case Interrupted =>
      ended.(open := if a.open.Open? && a.open.mode == Stall then a.open else Open(Stall, e.time))
    case Resumed => ended.(open := Open(Play, e.time))
  }

  function TimelineScan(es: seq<Event>): Timeline {
    if |es| == 0 then Timeline(NoSegment, None, [])
    else OnTimelineEvent(TimelineScan(es[..|es| - 1]), es[|es| - 1])
  }

  /** The spans, the last one ended at time `end`. */
  function Spans(es: seq<Event>, end: real): seq<Span> {
    EndSpan(TimelineScan(es), end).spans
  }

  method CreatePlaybackTimeline(events: seq<Event>) returns (periods: seq<Span>)
    ensures events == [] ==> periods == []
    ensures |events| > 0 ==> periods == Spans(InOrder(events), FinalTime(InOrder(events), None))
  {
    periods := [];
    if |events| == 0 {
      return;
    }
    var es := InOrder(events);
    var open, resolution := NoSegment, None;
    for i := 0 to |es|
      invariant TimelineScan(es[..i]) == Timeline(open, resolution, periods)
    {
      var e := es[i];
      assert es[..i + 1][..i] == es[..i];
      match e.kind {
        case Playing =>
          if open.Open? && open.mode == Stall {
            periods := periods + [Span(open.start, e.time, Stall, resolution)];
          }
          if !(open.Open? && open.mode == Play) {
            open := Open(Play, e.time);
          }
          resolution := Some(e.resolution);
        case Interrupted =>
          if open.Open? && open.mode == Play {
            periods := periods + [Span(open.start, e.time, Play, resolution)];
          }
          if !(open.Open? && open.mode == Stall) {
            open := Open(Stall, e.time);
          }
        case Resumed =>
          if open.Open? && open.mode == Stall {
            periods := periods + [Span(open.start, e.time, Stall, resolution)];
          }
          open := Open(Play, e.time);
      }
    }
    assert es[..|es|] == es;
    if open.Open? {
      periods := periods + [Span(open.start, es[|es| - 1].time, open.mode, resolution)];
    }
  }

  function OfMode(spans: seq<Span>, mode: Mode): seq<Period> {
    if |spans| == 0 then []
    else
      var last := spans[|spans| - 1];
      OfMode(spans[..|spans| - 1], mode) + if last.mode == mode then [Period(last.start, last.end)] else []
  }

  lemma OfModeAppend(spans: seq<Span>, s: Span, mode: Mode)
    ensures OfMode(spans + [s], mode) == OfMode(spans, mode) + if s.mode == mode then [Period(s.start, s.end)] else []
  {
    assert (spans + [s])[..|spans|] == spans;
  }

  ghost predicate SameView(t: Timeline, a: Stats) {
    t.open == a.open && OfMode(t.spans, Play) == a.playbackPeriods && OfMode(t.spans, Stall) == a.interruptionPeriods
  }

  lemma EndSpanSameView(t: Timeline, a: Stats, time: real)
    requires SameView(t, a)
    ensures SameView(EndSpan(t, time), EndSegment(a, time))
  {
    if t.open.Open? {
      var s := Span(t.open.start, time, t.open.mode, t.resolution);
      OfModeAppend(t.spans, s, Play);
      OfModeAppend(t.spans, s, Stall);
    }
  }

  lemma {:induction false} ScansSameView(es: seq<Event>)
    ensures SameView(TimelineScan(es), Scan(es))
  {
    if |es| == 0 {
    } else {
      var before, e := es[..|es| - 1], es[|es| - 1];
      ScansSameView(before);
      EventSameView(TimelineScan(before), Scan(before), e);
    }
  }

  lemma EventSameView(t: Timeline, a: Stats, e: Event)
    requires SameView(t, a)
    ensures SameView(OnTimelineEvent(t, e), OnEvent(a, e))
  {
    EndSpanSameView(t, a, e.time);
  }

  /** The timeline filtered by status is the two period lists of the statistics, for every event list. */
  lemma TimelineMatchesStats(events: seq<Event>, endTime: Option<real>)
    requires |events| > 0
    ensures var r, es := FinalStats(events, endTime), InOrder(events);
            var spans := Spans(es, FinalTime(es, endTime));
            OfMode(spans, Play) == r.playbackPeriods && OfMode(spans, Stall) == r.interruptionPeriods
  {
    var es := InOrder(events);
    ScansSameView(es);
    EndSpanSameView(TimelineScan(es), Scan(es), FinalTime(es, endTime));
  }

  // ---------- Which resolution a span has ----------

  function IsPlaying(): Event -> bool {
    (e: Event) => e.kind.Playing?
  }

  /** The resolution of the last `playing` event; None before the first. */
  function Showing(es: seq<Event>): Option<string> {
    var last := LastPassed(es, IsPlaying());
    if last.Some? then Some(last.value.resolution) else None
  }

  /** The span ends at event n, or at the end of the list, and has the resolution shown until then. */
  ghost predicate EndedAt(es: seq<Event>, s: Span, n: nat) {
    n <= |es| && (n < |es| ==> s.end == es[n].time) && s.resolution == Showing(es[..n])
  }

  lemma {:induction false} ScanShows(es: seq<Event>)
    ensures TimelineScan(es).resolution == Showing(es)
  {
    if |es| == 0 {
    } else {
      ScanShows(es[..|es| - 1]);
    }
  }

  lemma {:induction false} ScanResolved(es: seq<Event>, k: nat) returns (n: nat)
    requires k < |TimelineScan(es).spans|
    ensures n < |es| && EndedAt(es, TimelineScan(es).spans[k], n)
  {
    var before := es[..|es| - 1];
    if k < |TimelineScan(before).spans| {
      n := ScanResolved(before, k);
      assert before[..n] == es[..n];
    } else {
      n := |es| - 1;
      ScanShows(before);
    }
  }

  /** Every span shows the resolution of the last `playing` event before the event that ends it. */
  lemma SpansResolved(es: seq<Event>, end: real, k: nat) returns (n: nat)
    requires k < |Spans(es, end)|
    ensures EndedAt(es, Spans(es, end)[k], n)
    ensures n == |es| ==> k == |Spans(es, end)| - 1 && Spans(es, end)[k].end == end
  {
    if k < |TimelineScan(es).spans| {
      n := ScanResolved(es, k);
    } else {
      n := |es|;
      ScanShows(es);
      assert es[..n] == es;
    }
  }

  // ---------- The periods are ordered, disjoint and alternate ----------

  /** Spans follow each other in time and take turns between playing and stalled. */
  ghost predicate TakeTurns(spans: seq<Span>) {
    && (forall i :: 0 <= i < |spans| ==> spans[i].start <= spans[i].end)
    && (forall i, j :: 0 <= i < j < |spans| ==> spans[i].end <= spans[j].start)
    && (forall i :: 0 < i < |spans| ==> spans[i].mode != spans[i - 1].mode)
  }

  ghost predicate InTime(t: Timeline, first: real, now: real) {
    && t.open.Open? && first <= t.open.start <= now
    && TakeTurns(t.spans)
    && (forall i :: 0 <= i < |t.spans| ==> first <= t.spans[i].start && t.spans[i].end <= t.open.start)
    && (|t.spans| > 0 ==> t.spans[|t.spans| - 1].mode != t.open.mode)
  }

  lemma EndSpanTakesTurns(t: Timeline, first: real, now: real, time: real)
    requires InTime(t, first, now) && now <= time
    ensures var spans := EndSpan(t, time).spans;
            && TakeTurns(spans) && |spans| > 0 && spans[|spans| - 1].mode == t.open.mode
            && (forall i :: 0 <= i < |spans| ==> first <= spans[i].start && spans[i].end <= time)
  {
    var n, spans := |t.spans|, EndSpan(t, time).spans;
    assert spans[n] == Span(t.open.start, time, t.open.mode, t.resolution);
    assert forall i :: 0 <= i < n ==> spans[i] == t.spans[i];
  }

  /** The open span ends and one of the other mode begins. */
  lemma SwitchedInTime(t: Timeline, first: real, now: real, time: real, next: Timeline)
    requires InTime(t, first, now) && now <= time
    requires next.spans == EndSpan(t, time).spans && next.open.Open?
    requires next.open.start == time && next.open.mode != t.open.mode
    ensures InTime(next, first, time)
  {
    EndSpanTakesTurns(t, first, now, time);
  }

  /** The open span goes on, or restarts. */
  lemma KeptInTime(t: Timeline, first: real, now: real, time: real, next: Timeline)
    requires InTime(t, first, now) && now <= time
    requires next.spans == t.spans && next.open.Open? && next.open.mode == t.open.mode
    requires t.open.start <= next.open.start <= time
    ensures InTime(next, first, time)
  {
  }

  lemma EventInTime(t: Timeline, first: real, now: real, e: Event)
    requires InTime(t, first, now) && now <= e.time
    ensures InTime(OnTimelineEvent(t, e), first, e.time)
  {
    var next := OnTimelineEvent(t, e);
    if next.open.mode == t.open.mode {
      KeptInTime(t, first, now, e.time, next);
    } else {
      SwitchedInTime(t, first, now, e.time, next);
    }
  }

  lemma {:induction false} ScanInTime(es: seq<Event>)
    requires |es| > 0 && SortedBy(es, EventTime)
    ensures InTime(TimelineScan(es), es[0].time, es[|es| - 1].time)
  {
    var before, e := es[..|es| - 1], es[|es| - 1];
    if |before| == 0 {
      assert TimelineScan(before) == Timeline(NoSegment, None, []);
    } else {
      assert EventTime(es[|es| - 2]) <= EventTime(e);
      assert SortedBy(before, EventTime);
      ScanInTime(before);
      EventInTime(TimelineScan(before), es[0].time, before[|before| - 1].time, e);
    }
  }

  /** The periods of both lists together are in time order, do not overlap, lie between the first event and
      the end, and strictly take turns between playing and stalled. */
  lemma PeriodsTakeTurns(events: seq<Event>, endTime: Option<real>)
    requires |events| > 0
    ensures var es := InOrder(events);
            var spans := Spans(es, FinalTime(es, endTime));
            && TakeTurns(spans)
            && (forall i :: 0 <= i < |spans| ==> es[0].time <= spans[i].start && spans[i].end <= FinalTime(es, endTime))
  {
    SortIsSorted(events, EventTime);
    var es := InOrder(events);
    ScanInTime(es);
    EndSpanTakesTurns(TimelineScan(es), es[0].time, es[|es| - 1].time, FinalTime(es, endTime));
  }

  // ---------- The playback state at a time ----------

  function UpTo(t: real): Event -> bool {
    (e: Event) => e.time <= t
  }

  /** Whether the user is playing at time t: what the last event up to t says; before all events, no. */
  function PlayingAt(es: seq<Event>, t: real): bool {
    var last := LastPassed(es, UpTo(t));
    last.Some? && !last.value.kind.Interrupted?
  }

  /** A cursor that has passed exactly the events up to t reads the answer off the event it passed last. */
  lemma CursorAnswers(es: seq<Event>, idx: nat, t: real)
    requires SortedBy(es, EventTime) && idx <= |es|
    requires idx > 0 ==> es[idx - 1].time <= t
    requires idx < |es| ==> t < es[idx].time
    ensures PlayingAt(es, t) == (idx > 0 && !es[idx - 1].kind.Interrupted?)
  {
    forall j | idx <= j < |es| ensures !UpTo(t)(es[j]) {
      assert idx < j ==> EventTime(es[idx]) <= EventTime(es[j]);
    }
    CursorReads(es, UpTo(t), idx);
  }

  /** Event i is the latest one up to t, and of several at that time the last in the list. */
  ghost predicate IsLatest(events: seq<Event>, t: real, i: nat) {
    && i < |events| && events[i].time <= t
    && forall j :: 0 <= j < |events| && events[j].time <= t ==>
         events[j].time < events[i].time || (events[j].time == events[i].time && j <= i)
  }

  lemma LatestInOrder(events: seq<Event>, t: real, i: nat, es: seq<Event>) returns (m: nat)
    requires IsLatest(events, t, i) && SortedBy(es, EventTime) && multiset(es) == multiset(events)
    ensures m < |es| && LastPassed(es, UpTo(t)) == Some(es[m]) && EventTime(es[m]) == EventTime(events[i])
    ensures forall j :: m < j < |es| ==> EventTime(es[j]) != EventTime(events[i])
  {
    assert events[i] in multiset(es);
    var n :| 0 <= n < |es| && es[n] == events[i];
    m := LastPassedAt(es, UpTo(t), n);
    assert es[m] in multiset(events);
    var j :| 0 <= j < |events| && events[j] == es[m];
    assert EventTime(es[n]) <= EventTime(es[m]);
  }

  /** What the state is in terms of the list as it came, sorted or not: the latest event up to t decides, and
      of several at that time the one that comes last in the list. */
  lemma LatestEventDecides(events: seq<Event>, t: real, i: nat)
    requires IsLatest(events, t, i)
    ensures PlayingAt(InOrder(events), t) == !events[i].kind.Interrupted?
  {
    var es, time := InOrder(events), EventTime(events[i]);
    SortIsSorted(events, EventTime);
    SortIsStable(events, EventTime, time);
    var m := LatestInOrder(events, t, i, es);
    LastWithKey(es, EventTime, time, m);
    LastWithKey(events, EventTime, time, i);
  }

  /** The point query _user_state_at_time. */
  method UserStateAtTime(events: seq<Event>, t: real) returns (playing: bool)
    ensures playing == PlayingAt(InOrder(events), t)
  {
    if |events| == 0 {
      return false;
    }
    var es := InOrder(events);
    SortIsSorted(events, EventTime);
    var last: Option<Event> := None;
    var i := 0;
    while i < |es| && es[i].time <= t
      invariant 0 <= i <= |es|
      invariant last == if i == 0 then None else Some(es[i - 1])
      invariant i > 0 ==> es[i - 1].time <= t
    {
      last := Some(es[i]);
      i := i + 1;
    }
    CursorAnswers(es, i, t);
    playing := last.Some? && !last.value.kind.Interrupted?;
  }

  /** One cursor over the events answers the point query at a whole increasing list of times. */
  method SweepStates(es: seq<Event>, times: seq<real>) returns (states: seq<bool>)
    requires SortedBy(es, EventTime)
    requires forall i :: 0 < i < |times| ==> times[i - 1] < times[i]
    ensures |states| == |times|
    ensures forall i :: 0 <= i < |states| ==> states[i] == PlayingAt(es, times[i])
  {
    states := [];
    var state, idx := false, 0;
    for i := 0 to |times|
      invariant idx <= |es| && |states| == i
      invariant idx > 0 ==> i > 0 && es[idx - 1].time <= times[i - 1]
      invariant state == (idx > 0 && !es[idx - 1].kind.Interrupted?)
      invariant forall k :: 0 <= k < i ==> states[k] == PlayingAt(es, times[k])
    {
      while idx < |es| && es[idx].time <= times[i]
        invariant idx <= |es|
        invariant idx > 0 ==> es[idx - 1].time <= times[i]
        invariant state == (idx > 0 && !es[idx - 1].kind.Interrupted?)
      {
        state := !es[idx].kind.Interrupted?;
        idx := idx + 1;
      }
      CursorAnswers(es, idx, times[i]);
      states := states + [state];
    }
  }

  /** The series of calculate_playback_state_over_time: at each bin centre, the point query's answer. */
  method PlaybackStateOverTime(events: seq<Event>, interval: real, maxTime: real)
    returns (times: seq<real>, states: seq<bool>)
    requires interval > 0.0
    ensures times == Grid.BinCentres(0.0, maxTime + interval, interval)
    ensures |states| == |times|
    ensures forall i :: 0 <= i < |states| ==> states[i] == PlayingAt(InOrder(events), times[i])
  {
    times := Grid.BinCentres(0.0, maxTime + interval, interval);
    SortIsSorted(events, EventTime);
    states := SweepStates(InOrder(events), times);
  }

  // ---------- The state and the reported interruptions ----------

  /** t lies in one of the half-open periods. */
  ghost predicate Within(ps: seq<Period>, t: real) {
    exists i :: 0 <= i < |ps| && ps[i].start <= t < ps[i].end
  }

  lemma WithinAppend(ps: seq<Period>, p: Period, t: real)
    ensures Within(ps + [p], t) <==> Within(ps, t) || p.start <= t < p.end
  {
    var qs := ps + [p];
    if Within(ps, t) {
      var i :| 0 <= i < |ps| && ps[i].start <= t < ps[i].end;
      assert qs[i] == ps[i];
    }
    if p.start <= t < p.end {
      assert qs[|ps|] == p;
    }
  }

  ghost predicate StalledIn(a: Stats, first: real, t: real) {
    t < first || Within(a.interruptionPeriods, t) || (a.open.Open? && a.open.mode == Stall && a.open.start <= t)
  }

  ghost predicate StartsBefore(a: Stats, now: real) {
    (a.open.Open? ==> a.open.start <= now)
    && forall i :: 0 <= i < |a.interruptionPeriods| ==> a.interruptionPeriods[i].end <= now
  }

  /** From its own time on an event decides alone; before, it changes nothing. */
  lemma EventView(a: Stats, e: Event, first: real, t: real)
    requires StartsBefore(a, e.time) && a.open.Open? && first <= e.time
    ensures StartsBefore(OnEvent(a, e), e.time)
    ensures StalledIn(OnEvent(a, e), first, t) <==> if e.time <= t then e.kind.Interrupted? else StalledIn(a, first, t)
  {
    WithinAppend(a.interruptionPeriods, Period(a.open.start, e.time), t);
  }

  lemma {:induction false} OpenView(es: seq<Event>, t: real)
    requires |es| > 0 && SortedBy(es, EventTime)
    ensures Scan(es).open.Open? && StartsBefore(Scan(es), es[|es| - 1].time)
    ensures !PlayingAt(es, t) <==> StalledIn(Scan(es), es[0].time, t)
  {
    var before, e := es[..|es| - 1], es[|es| - 1];
    if |before| == 0 {
      assert Scan(before) == Stats(NoSegment, 0.0, 0.0, [], []) && LastPassed(before, UpTo(t)) == None;
    } else {
      assert forall i, j :: 0 <= i < j < |es| ==> EventTime(es[i]) <= EventTime(es[j]);
      assert EventTime(before[|before| - 1]) <= EventTime(e);
      assert EventTime(es[0]) <= EventTime(e);
      OpenView(before, t);
      EventView(Scan(before), e, es[0].time, t);
    }
  }

  lemma EndView(a: Stats, first: real, end: real, t: real)
    requires a.open.Open? && t < end
    ensures StalledIn(a, first, t) <==> t < first || Within(EndSegment(a, end).interruptionPeriods, t)
  {
    WithinAppend(a.interruptionPeriods, Period(a.open.start, end), t);
  }

  /** All views agree: before the final time a user is not playing exactly before the first event and inside
      the half-open interruption periods that the statistics report. */
  lemma StateMatchesPeriods(events: seq<Event>, endTime: Option<real>, t: real)
    requires |events| > 0 && t < FinalTime(InOrder(events), endTime)
    ensures !PlayingAt(InOrder(events), t) <==>
            t < InOrder(events)[0].time || Within(FinalStats(events, endTime).interruptionPeriods, t)
  {
    var es := InOrder(events);
    SortIsSorted(events, EventTime);
    OpenView(es, t);
    EndView(Scan(es), es[0].time, FinalTime(es, endTime), t);
  }

  // ---------- compute_playback_metrics ----------

  lemma {:induction false} ScanNonNegative(es: seq<Event>)
    requires |es| > 0 && SortedBy(es, EventTime)
    ensures var a := Scan(es);
            a.playbackTime >= 0.0 && a.interruptionTime >= 0.0 && a.open.Open? && a.open.start <= es[|es| - 1].time
  {
    var before, e := es[..|es| - 1], es[|es| - 1];
    if |before| == 0 {
      assert Scan(before) == Stats(NoSegment, 0.0, 0.0, [], []);
    } else {
      assert forall i, j :: 0 <= i < j < |es| ==> EventTime(es[i]) <= EventTime(es[j]);
      assert EventTime(before[|before| - 1]) <= EventTime(e);
      ScanNonNegative(before);
    }
  }

  lemma EndSegmentNonNegative(a: Stats, t: real)
    requires a.playbackTime >= 0.0 && a.interruptionTime >= 0.0 && a.open.Open? && a.open.start <= t
    ensures EndSegment(a, t).playbackTime >= 0.0 && EndSegment(a, t).interruptionTime >= 0.0
  {
  }

  lemma TotalsNonNegative(events: seq<Event>, endTime: Option<real>)
    requires |events| > 0
    ensures FinalStats(events, endTime).playbackTime >= 0.0 && FinalStats(events, endTime).interruptionTime >= 0.0
  {
    var es := InOrder(events);
    SortIsSorted(events, EventTime);
    ScanNonNegative(es);
    EndSegmentNonNegative(Scan(es), FinalTime(es, endTime));
  }

  method CountStalls(events: seq<Event>) returns (stallCount: nat)
    ensures stallCount == |StallsAt(events)|
  {
    stallCount := 0;
    for i := 0 to |events|
      invariant stallCount == Stalls(events[..i])
    {
      assert events[..i + 1][..i] == events[..i];
      if events[i].kind.Interrupted? {
        stallCount := stallCount + 1;
      }
    }
    assert events[..|events|] == events;
    StallsAreInterruptions(events);
  }

  /** The per-user metrics. The ratio is the share of the accounted time spent interrupted. */
  method PlaybackMetrics(events: seq<Event>, endTime: Option<real>)
    returns (playbackTime: real, interruptionTime: real, rebufferRatio: real, stallCount: nat)
    ensures |events| > 0 ==> playbackTime == FinalStats(events, endTime).playbackTime
                             && interruptionTime == FinalStats(events, endTime).interruptionTime
    ensures |events| == 0 ==> playbackTime == 0.0 && stallCount == 0
                              && interruptionTime == if endTime.Some? then endTime.value else 0.0
    ensures ReachesEnd(events, endTime, playbackTime, interruptionTime) && stallCount == |StallsAt(events)|
    ensures 0.0 <= rebufferRatio <= 1.0 && 0.0 <= playbackTime
    ensures rebufferRatio * (playbackTime + interruptionTime) == interruptionTime <==>
            |events| > 0 || endTime.None? || endTime.value == 0.0
  {
    stallCount := CountStalls(events);
    if |events| == 0 {
      return 0.0, if endTime.Some? then endTime.value else 0.0, 0.0, 0;
    }
    var pp, ip;
    playbackTime, interruptionTime, pp, ip := CalculatePlaybackStats(events, endTime);
    TotalsNonNegative(events, endTime);
    rebufferRatio := RatioOf(playbackTime, interruptionTime);
  }

  method RatioOf(played: real, interrupted: real) returns (ratio: real)
    requires played >= 0.0 && interrupted >= 0.0
    ensures 0.0 <= ratio <= 1.0 && ratio * (played + interrupted) == interrupted
  {
    var total := played + interrupted;
    ratio := if total > 0.0 then interrupted / total else 0.0;
    if total > 0.0 {
      ShareOfTotal(played, interrupted);
    }
  }

  lemma ShareOfTotal(played: real, stalled: real)
    requires played >= 0.0 && stalled >= 0.0 && played + stalled > 0.0
    ensures 0.0 <= stalled / (played + stalled) <= 1.0
    ensures stalled / (played + stalled) * (played + stalled) == stalled
  {
  }
}
