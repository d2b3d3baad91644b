/** Playback accounting: calculate_playback_stats of both plotting scripts, the timeline of the single-run
    script and the per-user metrics, with the laws that tie them together. */
module Playback {
  import opened Wrappers
  import opened Sorting

  datatype Kind = Playing | Interrupted | Resumed

  datatype Event = Event(kind: Kind, time: real, resolution: string)

  function EventTime(e: Event): real { e.time }

  function InOrder(events: seq<Event>): (es: seq<Event>)
    ensures |es| == |events|
  {
    SortBy(events, EventTime)
  }

  datatype Mode = Play | Stall

  datatype Period = Period(start: real, end: real)

  /** The variables state and state_start_time: both None at first, both set from the first event on. */
  datatype Segment = NoSegment | Open(mode: Mode, start: real)

  // ---------- The four accumulators ----------

  datatype Stats = Stats(open: Segment, playbackTime: real, interruptionTime: real,
                         playbackPeriods: seq<Period>, interruptionPeriods: seq<Period>)

  /** Ends the open segment at time t, into the accumulators of its own mode. */
  function EndSegment(a: Stats, t: real): Stats {
    match a.open
    case NoSegment => a
    case Open(Play, s) => a.(playbackTime := a.playbackTime + (t - s),
                             playbackPeriods := a.playbackPeriods + [Period(s, t)])
    case Open(Stall, s) => a.(interruptionTime := a.interruptionTime + (t - s),
                              interruptionPeriods := a.interruptionPeriods + [Period(s, t)])
  }

  function OnEvent(a: Stats, e: Event): Stats {
    match e.kind
    case Playing =>
      if a.open.Open? && a.open.mode == Play then a else EndSegment(a, e.time).(open := Open(Play, e.time))
    case Interrupted =>
      if a.open.Open? && a.open.mode == Stall then a else EndSegment(a, e.time).(open := Open(Stall, e.time))
    case Resumed =>
      if a.open.Open? && a.open.mode == Play then a.(open := Open(Play, e.time))
      else EndSegment(a, e.time).(open := Open(Play, e.time))
  }

  function Scan(es: seq<Event>): Stats {
    if |es| == 0 then Stats(NoSegment, 0.0, 0.0, [], [])
    else OnEvent(Scan(es[..|es| - 1]), es[|es| - 1])
  }

  /** The last event's time, or the given end time when that is later. */
  function FinalTime(es: seq<Event>, endTime: Option<real>): real
    requires |es| > 0
  {
    var last := es[|es| - 1].time;
    if endTime.Some? && endTime.value > last then endTime.value else last
  }

  function FinalStats(events: seq<Event>, endTime: Option<real>): Stats {
    if |events| == 0 then Scan([])
    else EndSegment(Scan(InOrder(events)), FinalTime(InOrder(events), endTime))
  }

  /** The loop over the events, on its five variables. */
  method ScanEvents(es: seq<Event>)
    returns (open: Segment, playbackTime: real, interruptionTime: real,
             playbackPeriods: seq<Period>, interruptionPeriods: seq<Period>)
    ensures Scan(es) == Stats(open, playbackTime, interruptionTime, playbackPeriods, interruptionPeriods)
  {
    open, playbackTime, interruptionTime, playbackPeriods, interruptionPeriods := NoSegment, 0.0, 0.0, [], [];
    for i := 0 to |es|
      invariant Scan(es[..i]) == Stats(open, playbackTime, interruptionTime, playbackPeriods, interruptionPeriods)
    {
      var e := es[i];
      assert es[..i + 1][..i] == es[..i];
      match e.kind {
        case Playing =>
          if open.Open? && open.mode == Stall {
            interruptionTime := interruptionTime + (e.time - open.start);
            interruptionPeriods := interruptionPeriods + [Period(open.start, e.time)];
          }
          if !(open.Open? && open.mode == Play) {
            open := Open(Play, e.time);
          }
        case Interrupted =>
          if open.Open? && open.mode == Play {
            playbackTime := playbackTime + (e.time - open.start);
            playbackPeriods := playbackPeriods + [Period(open.start, e.time)];
          }
          if !(open.Open? && open.mode == Stall) {
            open := Open(Stall, e.time);
          }
        case Resumed =>
          if open.Open? && open.mode == Stall {
            interruptionTime := interruptionTime + (e.time - open.start);
            interruptionPeriods := interruptionPeriods + [Period(open.start, e.time)];
          }
          open := Open(Play, e.time);
      }
    }
    assert es[..|es|] == es;
  }

  method CalculatePlaybackStats(events: seq<Event>, endTime: Option<real>)
    returns (playbackTime: real, interruptionTime: real,
             playbackPeriods: seq<Period>, interruptionPeriods: seq<Period>)
    ensures var r := FinalStats(events, endTime);
            && playbackTime == r.playbackTime && interruptionTime == r.interruptionTime
            && playbackPeriods == r.playbackPeriods && interruptionPeriods == r.interruptionPeriods
    ensures ReachesEnd(events, endTime, playbackTime, interruptionTime)
  {
    TotalsReachEnd(events, endTime);
    if |events| == 0 {
      return 0.0, 0.0, [], [];
    }
    var es := InOrder(events);
    var open;
    open, playbackTime, interruptionTime, playbackPeriods, interruptionPeriods := ScanEvents(es);
    var finalTime := FinalTime(es, endTime);
    if open.Open? && open.mode == Play {
      playbackTime := playbackTime + (finalTime - open.start);
      playbackPeriods := playbackPeriods + [Period(open.start, finalTime)];
    } else if open.Open? && open.mode == Stall {
      interruptionTime := interruptionTime + (finalTime - open.start);
      interruptionPeriods := interruptionPeriods + [Period(open.start, finalTime)];
    }
  }

  // ---------- Accounting ----------

  /** Time thrown away when `resumed` arrives while already playing: the open segment starts over. */
  function Discarded(es: seq<Event>): real {
    if |es| == 0 then 0.0
    else
      var before, e := es[..|es| - 1], es[|es| - 1];
      Discarded(before) + ThrownAway(Scan(before), e)
  }

  function ThrownAway(a: Stats, e: Event): real {
    if e.kind.Resumed? && a.open.Open? && a.open.mode == Play then e.time - a.open.start else 0.0
  }

  function Length(ps: seq<Period>): real {
    if |ps| == 0 then 0.0 else Length(ps[..|ps| - 1]) + (ps[|ps| - 1].end - ps[|ps| - 1].start)
  }

  lemma LengthAppend(ps: seq<Period>, p: Period)
    ensures Length(ps + [p]) == Length(ps) + (p.end - p.start)
  {
    assert (ps + [p])[..|ps|] == ps;
  }

  function Stalls(es: seq<Event>): nat {
    if |es| == 0 then 0 else Stalls(es[..|es| - 1]) + StallOf(es[|es| - 1])
  }

  function StallOf(e: Event): nat {
    if e.kind.Interrupted? then 1 else 0
  }

  function StallsAt(es: seq<Event>): set<int> {
    set i | 0 <= i < |es| && es[i].kind.Interrupted?
  }

  /** The stall count is the number of `interrupted` events. */
  lemma {:induction false} StallsAreInterruptions(es: seq<Event>)
    ensures Stalls(es) == |StallsAt(es)|
  {
    if |es| == 0 {
      assert StallsAt(es) == {};
    } else {
      var front := es[..|es| - 1];
      StallsAreInterruptions(front);
      assert StallsAt(es) == StallsAt(front) + if es[|es| - 1].kind.Interrupted? then {|es| - 1} else {};
    }
  }

  ghost predicate Balanced(a: Stats) {
    a.playbackTime == Length(a.playbackPeriods) && a.interruptionTime == Length(a.interruptionPeriods)
  }

  lemma EndSegmentBalanced(a: Stats, t: real)
    requires Balanced(a)
    ensures Balanced(EndSegment(a, t))
  {
    if a.open.Open? {
      LengthAppend(a.playbackPeriods, Period(a.open.start, t));
      LengthAppend(a.interruptionPeriods, Period(a.open.start, t));
    }
  }

  /** After events from time `first` on, `discarded` seconds thrown away and `stalls` interruptions. */
  ghost predicate Accounted(a: Stats, first: real, discarded: real, stalls: nat) {
    && Balanced(a) && a.open.Open?
    && a.playbackTime + a.interruptionTime + discarded == a.open.start - first
    && |a.interruptionPeriods| + (if a.open.mode == Stall then 1 else 0) <= stalls
  }

  lemma EventAccounts(a: Stats, first: real, discarded: real, stalls: nat, e: Event)
    requires Accounted(a, first, discarded, stalls)
    ensures Accounted(OnEvent(a, e), first, discarded + ThrownAway(a, e), stalls + StallOf(e))
  {
    EndSegmentBalanced(a, e.time);
  }

  lemma {:induction false} ScanAccounts(es: seq<Event>)
    requires |es| > 0
    ensures Accounted(Scan(es), es[0].time, Discarded(es), Stalls(es))
  {
    var before, e := es[..|es| - 1], es[|es| - 1];
    if |before| == 0 {
    } else {
      ScanAccounts(before);
      EventAccounts(Scan(before), es[0].time, Discarded(before), Stalls(before), e);
    }
  }

  /** `end` is the time of the last event or the given end time, whichever is later. */
  ghost predicate IsEnd(es: seq<Event>, endTime: Option<real>, end: real)
    requires |es| > 0
  {
    && es[|es| - 1].time <= end && (endTime.Some? ==> endTime.value <= end)
    && (end == es[|es| - 1].time || endTime == Some(end))
  }

  /** From the first event on, everything played, interrupted and discarded together reaches exactly to the end. */
  ghost predicate ReachesEnd(events: seq<Event>, endTime: Option<real>, played: real, interrupted: real) {
    var es := InOrder(events);
    |events| > 0 ==> IsEnd(es, endTime, es[0].time + played + interrupted + Discarded(es))
  }

  lemma TotalsReachEnd(events: seq<Event>, endTime: Option<real>)
    ensures var r := FinalStats(events, endTime); ReachesEnd(events, endTime, r.playbackTime, r.interruptionTime)
  {
    if |events| > 0 {
      PlaybackAccounting(events, endTime);
      assert IsEnd(InOrder(events), endTime, FinalTime(InOrder(events), endTime));
    }
  }

  /** Every second between the first event and the end is played, stalled or discarded; the totals are the
      lengths of the periods; and there are at most as many interruption periods as `interrupted` events. */
  lemma PlaybackAccounting(events: seq<Event>, endTime: Option<real>)
    requires |events| > 0
    ensures var r, es := FinalStats(events, endTime), InOrder(events);
            && r.playbackTime + r.interruptionTime + Discarded(es) == FinalTime(es, endTime) - es[0].time
            && IsEnd(es, endTime, FinalTime(es, endTime))
            && r.playbackTime == Length(r.playbackPeriods)
            && r.interruptionTime == Length(r.interruptionPeriods)
            && |r.interruptionPeriods| <= Stalls(es)
  {
    var es := InOrder(events);
    ScanAccounts(es);
    EndAccounts(Scan(es), es[0].time, Discarded(es), Stalls(es), FinalTime(es, endTime));
  }

  lemma EndAccounts(a: Stats, first: real, discarded: real, stalls: nat, end: real)
    requires Accounted(a, first, discarded, stalls)
    ensures var r := EndSegment(a, end);
            && r.playbackTime + r.interruptionTime + discarded == end - first
            && Balanced(r) && |r.interruptionPeriods| <= stalls
  {
    EndSegmentBalanced(a, end);
  }

  lemma StallsAppend(es: seq<Event>, e: Event)
    ensures Stalls(es + [e]) == Stalls(es) + StallOf(e)
  {
    assert (es + [e])[..|es|] == es;
  }

  lemma {:induction false} StallsOfInsert(es: seq<Event>, e: Event)
    ensures Stalls(InsertBy(es, e, EventTime)) == Stalls(es) + StallOf(e)
  {
    if |es| == 0 || EventTime(es[|es| - 1]) <= EventTime(e) {
      StallsAppend(es, e);
    } else {
      StallsOfInsert(es[..|es| - 1], e);
      StallsAppend(InsertBy(es[..|es| - 1], e, EventTime), es[|es| - 1]);
    }
  }

  /** Sorting does not change how often playback was interrupted. */
  lemma {:induction false} StallsOfSorted(events: seq<Event>)
    ensures Stalls(InOrder(events)) == Stalls(events)
  {
    if |events| == 0 {
    } else {
      StallsOfSorted(events[..|events| - 1]);
      StallsOfInsert(InOrder(events[..|events| - 1]), events[|events| - 1]);
    }
  }
}
