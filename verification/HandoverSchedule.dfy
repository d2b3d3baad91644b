/** The handover protocol driven by the satellite schedule. */
module HandoverSchedule {
  import opened Handover
  import opened HandoverSafety
  import Orbit
  import opened Reals

  // ---------- Runs of the schedule ----------

  /** The next trigger of the schedule: donor k-1 hands over to donor k at (k - 0.5) * hoTime. The simulator
      does not let time pass a trigger that is still to come. */
  ghost predicate OnSchedule(c: Config, o: Orbit.Track, w: World, e: Event) {
    var k := w.triggers + 1;
    && (e.Trigger? ==> k < |c.cells| && e.at == Orbit.HandoverTime(o, k) && e.src == k - 1 && e.tgt == k)
    && (k < |c.cells| ==> e.at <= Orbit.HandoverTime(o, k))
  }

  ghost predicate Follows(c: Config, o: Orbit.Track, w: World, es: seq<Event>)
    requires Feasible(c, w, es)
    decreases |es|
  {
    es != [] ==> OnSchedule(c, o, w, es[0]) && Follows(c, o, Step(c, w, es[0]), es[1..])
  }

  /** An event while a handover is outstanding comes less than hoTime after that handover's trigger. */
  ghost predicate Prompt(o: Orbit.Track, w: World, e: Event) {
    w.request.Some? ==> e.at < w.lastTrigger + o.hoTime
  }

  /** Every handover is over, one way or the other, less than hoTime after its trigger. */
  ghost predicate AllPrompt(c: Config, o: Orbit.Track, w: World, es: seq<Event>)
    requires Feasible(c, w, es)
    decreases |es|
  {
    es != [] ==> Prompt(o, w, es[0]) && AllPrompt(c, o, Step(c, w, es[0]), es[1..])
  }

  /** No handover fails, and no trigger is told that the source has no UE manager. */
  ghost predicate NoFault(es: seq<Event>) {
    forall i :: 0 <= i < |es| ==> Faultless(es[i])
  }

  ghost predicate Faultless(e: Event) {
    !e.EndError? && (e.Trigger? ==> e.hasUe)
  }

  // ---------- The overlap abort ----------

  /** A trigger that gets past HasUeManager while a handover is outstanding. */
  ghost predicate Overlaps(w: World, e: Event) {
    e.Trigger? && e.hasUe && w.request.Some?
  }

  ghost predicate SomeOverlap(c: Config, w: World, es: seq<Event>)
    requires Feasible(c, w, es)
    decreases |es|
  {
    es != [] && (Overlaps(w, es[0]) || SomeOverlap(c, Step(c, w, es[0]), es[1..]))
  }

  /** Any run, on schedule or not, aborts exactly when a trigger finds a handover outstanding and a UE manager
      at its source. */
  lemma AbortExactly(c: Config, k: Cast, w0: World, es: seq<Event>)
    requires Init(c, k, w0) && Feasible(c, w0, es)
    ensures Run(c, w0, es).prog.aborted <==> SomeOverlap(c, w0, es)
  {
    AbortFrom(c, k, w0, es);
  }

  lemma {:induction false} AbortFrom(c: Config, k: Cast, w: World, es: seq<Event>)
    requires Inv(c, k, w) && Feasible(c, w, es)
    ensures Run(c, w, es).prog.aborted <==> w.prog.aborted || SomeOverlap(c, w, es)
    decreases |es|
  {
    if es == [] {
    } else {
      StepKeepsInv(c, k, w, es[0]);
      AbortFrom(c, k, Step(c, w, es[0]), es[1..]);
    }
  }

  /** The outstanding handover was triggered when the schedule says, or earlier. */
  ghost predicate Spaced(o: Orbit.Track, w: World) {
    w.request.Some? ==> w.lastTrigger <= Orbit.HandoverTime(o, w.triggers)
  }

  /** On schedule only a handover that has taken hoTime or longer can be overtaken. */
  lemma OverlapIsLate(c: Config, o: Orbit.Track, w: World, e: Event)
    requires Spaced(o, w) && Enabled(c, w, e) && OnSchedule(c, o, w, e) && Overlaps(w, e)
    ensures !Prompt(o, w, e)
  {
    NextHandoverTime(o, w.triggers);
  }

  lemma NextHandoverTime(o: Orbit.Track, k: nat)
    ensures Orbit.HandoverTime(o, k + 1) == Orbit.HandoverTime(o, k) + o.hoTime
  {
    OneMore(k as real - 0.5, (k + 1) as real - 0.5, o.hoTime);
  }

  lemma {:induction false} PromptNeverOverlaps(c: Config, o: Orbit.Track, w: World, es: seq<Event>)
    requires o.hoTime > 0.0 && Spaced(o, w)
    requires Feasible(c, w, es) && Follows(c, o, w, es) && AllPrompt(c, o, w, es)
    ensures !SomeOverlap(c, w, es)
    decreases |es|
  {
    if es == [] {
    } else {
      NextHandoverTime(o, w.triggers);
      PromptNeverOverlaps(c, o, Step(c, w, es[0]), es[1..]);
    }
  }

  /** If every handover is over in less than hoTime, succeed or fail, the overlap abort is never reached. */
  lemma OverlapAbortUnreachable(c: Config, k: Cast, o: Orbit.Track, w0: World, es: seq<Event>)
    requires o.hoTime > 0.0 && Init(c, k, w0) && Feasible(c, w0, es)
    requires Follows(c, o, w0, es) && AllPrompt(c, o, w0, es)
    ensures !Run(c, w0, es).prog.aborted
  {
    PromptNeverOverlaps(c, o, w0, es);
    AbortExactly(c, k, w0, es);
  }

  /** Promptness is needed: for every hoTime there is a run of the schedule that aborts, because the MT is still
      joining donor 1, under the RNTI it has got there, when the handover to donor 2 is triggered. */
  lemma LateHandoverAborts(c: Config, k: Cast, o: Orbit.Track, w0: World, rnti: nat) returns (es: seq<Event>)
    requires o.hoTime > 0.0 && Init(c, k, w0) && w0.serving.donor == 0 && |c.cells| > 2
    ensures Feasible(c, w0, es) && Follows(c, o, w0, es) && NoFault(es)
    ensures Run(c, w0, es).prog.aborted
  {
    var t1, t2 := Orbit.HandoverTime(o, 1), Orbit.HandoverTime(o, 2);
    ProductPositive(0.5, o.hoTime);
    NextHandoverTime(o, 1);
    var e1, e2, e3 := Trigger(t1, 0, 1, true), Start(t1, rnti), Trigger(t2, 1, 2, true);
    var w1 := Step(c, w0, e1);
    var w2 := Step(c, w1, e2);
    OneMoreInFront(c, o, w2, e3, []);
    OneMoreInFront(c, o, w1, e2, [e3] + []);
    OneMoreInFront(c, o, w0, e1, [e2] + ([e3] + []));
    es := [e1] + ([e2] + ([e3] + []));
    assert es == [e1, e2, e3];
  }

  lemma OneMoreInFront(c: Config, o: Orbit.Track, w: World, e: Event, es: seq<Event>)
    requires Enabled(c, w, e) && OnSchedule(c, o, w, e)
    requires Feasible(c, Step(c, w, e), es) && Follows(c, o, Step(c, w, e), es)
    ensures Feasible(c, w, [e] + es) && Follows(c, o, w, [e] + es)
    ensures Run(c, w, [e] + es) == Run(c, Step(c, w, e), es)
  {
    assert ([e] + es)[1..] == es;
  }

  // ---------- Where the schedule leads ----------

  /** What every run of the schedule keeps, with failures, late handovers and refused triggers: the IAB-MT is
      served by a donor the schedule has reached, an outstanding handover leads from there to the next one,
      and the time lies between the last trigger and the next. */
  ghost predicate OnTrack(c: Config, o: Orbit.Track, w: World) {
    && w.serving.donor <= w.triggers < |c.cells|
    && (w.prog.pending <==> w.request.Some?)
    && (w.request.Some? ==>
          w.serving.donor < w.triggers && w.request.value == Request(w.serving.donor, w.serving.donor + 1))
    && (w.triggers > 0 ==> Orbit.HandoverTime(o, w.triggers) <= w.now)
    && (w.triggers + 1 < |c.cells| ==> w.now <= Orbit.HandoverTime(o, w.triggers + 1))
  }

  lemma StepStaysOnTrack(c: Config, o: Orbit.Track, w: World, e: Event)
    requires o.hoTime > 0.0 && OnTrack(c, o, w) && Enabled(c, w, e) && OnSchedule(c, o, w, e)
    ensures OnTrack(c, o, Step(c, w, e))
  {
    NextHandoverTime(o, w.triggers);
    NextHandoverTime(o, w.triggers + 1);
  }

  lemma {:induction false} RunStaysOnTrack(c: Config, o: Orbit.Track, w: World, es: seq<Event>)
    requires o.hoTime > 0.0 && OnTrack(c, o, w) && Feasible(c, w, es) && Follows(c, o, w, es)
    ensures OnTrack(c, o, Run(c, w, es))
    decreases |es|
  {
    if es == [] {
    } else {
      StepStaysOnTrack(c, o, w, es[0]);
      RunStaysOnTrack(c, o, Step(c, w, es[0]), es[1..]);
    }
  }

  lemma InitIsOnTrack(c: Config, k: Cast, o: Orbit.Track, w0: World)
    requires o.hoTime > 0.0 && Init(c, k, w0) && w0.serving.donor == 0 && c.cells != []
    ensures OnTrack(c, o, w0)
  {
    ProductPositive(0.5, o.hoTime);
  }

  ghost predicate Overhead(o: Orbit.Track, iab: Orbit.Vector) {
    o.hoTime > 0.0 && o.stopTime > 0.0 && o.velocity != 0.0 && iab.x == o.posWired.x
  }

  /** The handover to donor d, if there is one, is scheduled while the donors still move. */
  ghost predicate InTimeFor(o: Orbit.Track, d: nat) {
    d > 0 ==> Orbit.HandoverTime(o, d) <= o.stopTime
  }

  lemma NearestOnTrack(c: Config, o: Orbit.Track, iab: Orbit.Vector, w: World)
    requires Overhead(o, iab) && OnTrack(c, o, w)
    ensures var d := w.serving.donor;
            Orbit.Nearest(o, |c.cells|, iab, d, w.now) <==>
            InTimeFor(o, d) && (d + 1 < |c.cells| ==> Orbit.Flown(o, w.now) <= Orbit.HandoverTime(o, d + 1))
  {
    var d := w.serving.donor;
    if d > 0 {
      ScaleMonotone(d as real - 0.5, w.triggers as real - 0.5, o.hoTime);
    }
    Orbit.ScheduledIsNearest(o, |c.cells|, iab, d, w.now);
  }

  /** Protocol and geometry together, in every run of the schedule: the serving donor is a nearest one exactly
      until the handover away from it is due, unless the handover to it came after the donors stopped moving. */
  lemma NearestExactly(c: Config, k: Cast, o: Orbit.Track, iab: Orbit.Vector, w0: World, es: seq<Event>)
    requires Overhead(o, iab) && Init(c, k, w0) && w0.serving.donor == 0 && c.cells != []
    requires Feasible(c, w0, es) && Follows(c, o, w0, es)
    ensures var w := Run(c, w0, es); var d := w.serving.donor;
            Orbit.Nearest(o, |c.cells|, iab, d, w.now) <==>
            InTimeFor(o, d) && (d + 1 < |c.cells| ==> Orbit.Flown(o, w.now) <= Orbit.HandoverTime(o, d + 1))
  {
    InitIsOnTrack(c, k, o, w0);
    RunStaysOnTrack(c, o, w0, es);
    NearestOnTrack(c, o, iab, Run(c, w0, es));
  }

  /** Once the schedule has passed the serving donor by, nothing is outstanding and every later trigger names a
      source that does not serve the IAB-MT: no handover is ever requested again. */
  lemma {:induction false} NoRecovery(c: Config, o: Orbit.Track, w: World, es: seq<Event>)
    requires o.hoTime > 0.0 && OnTrack(c, o, w) && w.request.None? && w.serving.donor < w.triggers
    requires Feasible(c, w, es) && Follows(c, o, w, es)
    ensures var w' := Run(c, w, es);
            && w'.request.None? && w'.serving == w.serving && w'.serving.donor < w'.triggers
            && w'.prog.aborted == w.prog.aborted
    decreases |es|
  {
    if es == [] {
    } else {
      StepStaysOnTrack(c, o, w, es[0]);
      NoRecovery(c, o, Step(c, w, es[0]), es[1..]);
    }
  }

  /** A failed handover is the last one: whatever comes after it on the schedule, the IAB-MT stays with the
      donor it failed to leave, which is a nearest one exactly until the time of the failed handover, if it ever
      was; for good, when the donors stop moving before that. */
  lemma FailureIsFinal(c: Config, o: Orbit.Track, iab: Orbit.Vector, w: World, e: Event, es: seq<Event>)
    requires Overhead(o, iab) && OnTrack(c, o, w)
    requires e.EndError? && Enabled(c, w, e) && OnSchedule(c, o, w, e)
    requires Feasible(c, Step(c, w, e), es) && Follows(c, o, Step(c, w, e), es)
    ensures var w' := Run(c, Step(c, w, e), es);
            && w'.request.None? && w'.serving == w.serving
            && (Orbit.Nearest(o, |c.cells|, iab, w'.serving.donor, w'.now) <==>
                InTimeFor(o, w.serving.donor)
                && Orbit.Flown(o, w'.now) <= Orbit.HandoverTime(o, w.request.value.tgt))
  {
    StepStaysOnTrack(c, o, w, e);
    NoRecovery(c, o, Step(c, w, e), es);
    RunStaysOnTrack(c, o, Step(c, w, e), es);
    NearestOnTrack(c, o, iab, Run(c, Step(c, w, e), es));
  }

  /** In a prompt run: the IAB-MT is up with the schedule as long as there was no fault, and behind it with
      nothing outstanding from the first fault on. */
  ghost predicate InStep(w: World, clean: bool) {
    if clean then w.serving.donor == (if w.request.Some? then w.triggers - 1 else w.triggers)
    else w.request.None? && w.serving.donor < w.triggers
  }

  lemma {:induction false} RunStaysInStep(c: Config, o: Orbit.Track, w: World, es: seq<Event>, clean: bool)
    requires o.hoTime > 0.0 && OnTrack(c, o, w) && Spaced(o, w) && InStep(w, clean)
    requires Feasible(c, w, es) && Follows(c, o, w, es) && AllPrompt(c, o, w, es)
    ensures InStep(Run(c, w, es), clean && NoFault(es))
    decreases |es|
  {
    if es == [] {
    } else {
      var e := es[0];
      NextHandoverTime(o, w.triggers);
      StepStaysOnTrack(c, o, w, e);
      RunStaysInStep(c, o, Step(c, w, e), es[1..], clean && Faultless(e));
      assert NoFault(es) <==> Faultless(e) && NoFault(es[1..]) by {
        assert forall i :: 1 <= i < |es| ==> es[i] == es[1..][i - 1];
      }
    }
  }

  /** In every prompt run of the schedule, whenever no handover is outstanding: the donor serving the IAB-MT is
      a nearest one exactly when the handover to it came before the donors stopped moving, and nothing has failed
      so far or they have not moved beyond the handover away from it. A single failure leaves the IAB-MT where it
      is for the rest of the run. */
  lemma ServedByNearestDonor(c: Config, k: Cast, o: Orbit.Track, iab: Orbit.Vector, w0: World, es: seq<Event>)
    requires Overhead(o, iab) && Init(c, k, w0) && w0.serving.donor == 0 && c.cells != []
    requires Feasible(c, w0, es) && Follows(c, o, w0, es) && AllPrompt(c, o, w0, es)
    ensures var w := Run(c, w0, es); var d := w.serving.donor;
            w.request.None? ==>
              && (d == w.triggers <==> NoFault(es))
              && (Orbit.Nearest(o, |c.cells|, iab, d, w.now) <==>
                  InTimeFor(o, d) && (NoFault(es) || Orbit.Flown(o, w.now) <= Orbit.HandoverTime(o, d + 1)))
  {
    InitIsOnTrack(c, k, o, w0);
    RunStaysOnTrack(c, o, w0, es);
    RunStaysInStep(c, o, w0, es, true);
    NearestExactly(c, k, o, iab, w0, es);
  }
}
