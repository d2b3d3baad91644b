/** What the handover invariant means for a whole run. */
module HandoverResults {
  import opened Wrappers
  import opened Handover
  import opened HandoverSafety

  /** Every descendant is registered at `here` and nowhere else in the constellation. */
  ghost predicate OnlyAt(mine: set<Context>, r: Relays, here: Address) {
    forall a :: if a == here then mine <= At(r, a) else mine !! At(r, a)
  }

  lemma PlacedOnlyThere(k: Cast, r: Relays, here: Address)
    requires Disjoint(k) && Placed(k, r, here)
    ensures OnlyAt(k.mine, r, here)
    ensures forall a :: At(r, a) - k.mine == At(k.others, a)
  {
    forall a
      ensures if a == here then k.mine <= At(r, a) else k.mine !! At(r, a)
      ensures At(r, a) - k.mine == At(k.others, a)
    {
      assert At(k.others, a) !! k.mine;
    }
  }

  /** Every state of every run from a quiescent start: the queued migrations form a chain that ends where the
      IAB-MT is served now, each descendant is registered at the start of that chain (at the serving address,
      once nothing is queued) and nowhere else, and nobody else's relay state has changed. */
  lemma NoContextLost(c: Config, k: Cast, w0: World, es: seq<Event>)
    requires Init(c, k, w0) && Feasible(c, w0, es)
    ensures var w := Run(c, w0, es);
            && AllBound(w.prog.queue) && Chained(w.prog.queue, w.serving)
            && OnlyAt(k.mine, w.prog.relays, Location(w.prog.queue, w.serving))
            && (forall a :: At(w.prog.relays, a) - k.mine == At(k.others, a))
  {
    RunKeepsInv(c, k, w0, es);
    var w := Run(c, w0, es);
    PlacedOnlyThere(k, w.prog.relays, Location(w.prog.queue, w.serving));
  }

  /** The interruption is bounded: more than one execution delay after the last successful handover nothing is
      queued any more, so by NoContextLost the descendants are where the IAB-MT is served. */
  lemma OutageBounded(c: Config, k: Cast, w0: World, es: seq<Event>)
    requires Init(c, k, w0) && Feasible(c, w0, es)
    ensures var w := Run(c, w0, es);
            w.now > w.lastEnd + c.execDelay ==> w.prog.queue == []
  {
    RunKeepsInv(c, k, w0, es);
    var w := Run(c, w0, es);
    if w.prog.queue != [] {
      var first := w.prog.queue[0];
      assert w.now <= first.due <= w.lastEnd + c.execDelay;
    }
  }

  /** The simulator left alone: run the queued migrations one after the other. */
  ghost function DrainEvents(q: seq<Scheduled>): (es: seq<Event>)
  {
    if q == [] then [] else [Fire(q[0].due, 0)] + DrainEvents(q[1..])
  }

  /** Draining the queue is always possible, leaves the serving address alone and brings every descendant there. */
  lemma {:induction false} DrainReachesServing(c: Config, k: Cast, w: World)
    requires Inv(c, k, w) && !w.prog.aborted
    ensures Feasible(c, w, DrainEvents(w.prog.queue))
    ensures var w' := Run(c, w, DrainEvents(w.prog.queue));
            w'.prog.queue == [] && w'.serving == w.serving && Placed(k, w'.prog.relays, w.serving)
    decreases |w.prog.queue|
  {
    var q := w.prog.queue;
    if q == [] {
    } else {
      var e := Fire(q[0].due, 0);
      FiresInOrder(c, w, 0);
      assert Enabled(c, w, e);
      StepKeepsInv(c, k, w, e);
      var w1 := Step(c, w, e);
      assert w1.prog.queue == q[1..];
      var es := DrainEvents(q);
      assert es[0] == e && es[1..] == DrainEvents(q[1..]);
      DrainReachesServing(c, k, w1);
    }
  }

  /** While a handover is outstanding the captured tuple is the one its own trigger stored, and from
      HandoverStart on the backhaul is tuned to the captured target exactly when no later donor in the
      donor list carries the same cell id. */
  lemma CapturedTupleHolds(c: Config, k: Cast, w0: World, es: seq<Event>)
    requires Init(c, k, w0) && Feasible(c, w0, es)
    ensures var w := Run(c, w0, es);
            w.request.Some? ==>
              var r := w.request.value;
              && w.prog.pending && w.prog.src == Some(r.src) && w.prog.tgt == Some(r.tgt)
              && Address(r.src, w.prog.oldRnti) == w.serving
              && (w.started ==>
                    (w.prog.tuned == w.prog.tgt <==>
                     forall d :: r.tgt < d < |c.cells| ==> c.cells[d] != c.cells[r.tgt]))
  {
    RunKeepsInv(c, k, w0, es);
    var w := Run(c, w0, es);
    if w.request.Some? {
      var tgt := w.request.value.tgt;
      var d := DonorByCell(c.cells)[c.cells[tgt]];
      assert tgt <= d < |c.cells| && c.cells[d] == c.cells[tgt];
    }
  }

  /** When a scheduled migration ran, and the relay state before and after. */
  datatype Firing = Firing(at: real, before: Relays, after: Relays)

  /** The firings of the migration queued with this uid, in a run. */
  ghost function Firings(c: Config, w: World, es: seq<Event>, uid: nat): seq<Firing>
    requires Feasible(c, w, es)
    decreases |es|
  {
    if es == [] then []
    else
      var e, w' := es[0], Step(c, w, es[0]);
      (if e.Fire? && w.prog.queue[e.index].uid == uid then [Firing(e.at, w.prog.relays, w'.prog.relays)] else [])
        + Firings(c, w', es[1..], uid)
  }

  ghost predicate Gone(q: seq<Scheduled>, uid: nat) {
    forall i :: 0 <= i < |q| ==> q[i].uid != uid
  }

  /** A uid that has been used and is off the queue never comes back. */
  lemma {:induction false} GoneForGood(c: Config, w: World, es: seq<Event>, uid: nat)
    requires Feasible(c, w, es) && uid < w.prog.nextUid && Gone(w.prog.queue, uid)
    ensures Gone(Run(c, w, es).prog.queue, uid) && Firings(c, w, es, uid) == []
    decreases |es|
  {
    if es == [] {
    } else {
      GoneForGood(c, Step(c, w, es[0]), es[1..], uid);
    }
  }

  /** The values bound at EndOk survive whatever comes after. In every later state of every run a deferred
      migration is still queued as it was scheduled, or it has run exactly once, when due, with those values. */
  lemma {:induction false} DeferredMigrationKeepsItsTuple(c: Config, k: Cast, w: World, es: seq<Event>, x: Scheduled)
    requires Inv(c, k, w) && Feasible(c, w, es) && x in w.prog.queue
    ensures var q, fs := Run(c, w, es).prog.queue, Firings(c, w, es, x.uid);
            || (x in q && fs == [])
            || (Gone(q, x.uid) && |fs| == 1 && fs[0].at == x.due && fs[0].after == Migrate(fs[0].before, x.m))
    decreases |es|
  {
    if es == [] {
    } else {
      var e, q := es[0], w.prog.queue;
      var w' := Step(c, w, e);
      StepKeepsInv(c, k, w, e);
      if e.Fire? && q[e.index] == x {
        FiresNow(c, w, e, x);
        GoneForGood(c, w', es[1..], x.uid);
      } else {
        StaysQueued(c, k, w, e, x);
        DeferredMigrationKeepsItsTuple(c, k, w', es[1..], x);
      }
    }
  }

  lemma FiresNow(c: Config, w: World, e: Event, x: Scheduled)
    requires QueueInOrder(c, w) && Enabled(c, w, e) && e.Fire? && w.prog.queue[e.index] == x
    ensures var w' := Step(c, w, e);
            && Gone(w'.prog.queue, x.uid) && x.uid < w'.prog.nextUid
            && e.at == x.due && w'.prog.relays == Migrate(w.prog.relays, x.m)
  {
    FiresInOrder(c, w, e.index);
  }

  lemma StaysQueued(c: Config, k: Cast, w: World, e: Event, x: Scheduled)
    requires Inv(c, k, w) && Enabled(c, w, e) && x in w.prog.queue
    requires e.Fire? ==> w.prog.queue[e.index] != x
    ensures x in Step(c, w, e).prog.queue
    ensures e.Fire? ==> w.prog.queue[e.index].uid != x.uid
  {
    if e.Fire? {
      FiresInOrder(c, w, e.index);
      StaysBehind(w.prog.queue, x);
    } else {
      QueueGrows(c, w, e);
    }
  }

  lemma StaysBehind(q: seq<Scheduled>, x: Scheduled)
    requires Ordered(q) && x in q && q[0] != x
    ensures x in q[..0] + q[1..] && q[0].uid != x.uid
  {
    var i :| 0 <= i < |q| && q[i] == x;
    assert (q[..0] + q[1..])[i - 1] == x;
  }

  lemma QueueGrows(c: Config, w: World, e: Event)
    requires Enabled(c, w, e) && !e.Fire?
    ensures w.prog.queue <= Step(c, w, e).prog.queue
  {
  }

  /** Why HasUeManager must mean "served here" when no handover is outstanding: a whole handover, run from rest
      with a positive answer at an arbitrary source, immediate or deferred, brings the descendants to the new
      address exactly when that source was serving. */
  lemma StaleSourceStrandsDescendants(k: Cast, p: Program, serving: Address, src: nat, tgt: nat,
                                      rnti: nat, newRnti: nat, execDelay: real, now: real)
    requires Disjoint(k) && Placed(k, p.relays, serving) && At(k.others, serving) == {} && k.mine != {}
    requires !p.pending && p.queue == [] && src != tgt && At(p.relays, Address(tgt, newRnti)) == {}
    ensures var ended := OnEndOk(OnTrigger(p, src, tgt, rnti, true), execDelay, now, newRnti);
            && (execDelay > 0.0 <==> |ended.queue| == 1)
            && var p' := if execDelay > 0.0 then OnFire(ended, 0) else ended;
               p'.queue == [] && (k.mine <= At(p'.relays, Address(tgt, newRnti)) <==> Address(src, rnti) == serving)
  {
    var m := Migration(Some(src), Some(tgt), rnti, newRnti);
    MigrateEffect(p.relays, m, Address(tgt, newRnti));
    assert At(p.relays, Address(src, rnti)) ==
           (if Address(src, rnti) == serving then k.mine else {}) + At(k.others, Address(src, rnti));
    var x :| x in k.mine;
    assert x !in At(k.others, Address(src, rnti));
  }

  // ---------- Where the backhaul is tuned ----------

  ghost predicate DistinctCells(c: Config) {
    forall d, e :: 0 <= d < e < |c.cells| ==> c.cells[d] != c.cells[e]
  }

  /** Whether the last handover to reach HandoverStart failed, given whether it had before this run. */
  ghost function LastStartFailed(c: Config, w: World, es: seq<Event>, failed: bool): bool
    requires Feasible(c, w, es)
    decreases |es|
  {
    if es == [] then failed
    else
      var e := es[0];
      LastStartFailed(c, Step(c, w, e), es[1..], (failed || (e.EndError? && w.started)) && !e.EndOk?)
  }

  ghost predicate TunedUnless(w: World, failed: bool) {
    && (w.request.Some? && w.started ==> w.prog.tuned == w.prog.tgt)
    && (w.request.None? || !w.started ==> (w.prog.tuned == Some(w.serving.donor) <==> !failed))
  }

  /** EndError does not retune: with distinct cell ids the backhaul at rest is tuned to the serving donor exactly
      when the last handover that got as far as HandoverStart succeeded. */
  lemma TunedAtRest(c: Config, k: Cast, w0: World, es: seq<Event>)
    requires Init(c, k, w0) && DistinctCells(c) && w0.prog.tuned == Some(w0.serving.donor) && Feasible(c, w0, es)
    ensures var w := Run(c, w0, es);
            w.request.None? ==> (w.prog.tuned == Some(w.serving.donor) <==> !LastStartFailed(c, w0, es, false))
  {
    TunedFrom(c, k, w0, es, false);
  }

  lemma {:induction false} TunedFrom(c: Config, k: Cast, w: World, es: seq<Event>, failed: bool)
    requires Inv(c, k, w) && DistinctCells(c) && TunedUnless(w, failed) && Feasible(c, w, es)
    ensures TunedUnless(Run(c, w, es), LastStartFailed(c, w, es, failed))
    decreases |es|
  {
    if es == [] {
    } else {
      var e := es[0];
      StepKeepsInv(c, k, w, e);
      TunedStep(c, k, w, e, failed);
      TunedFrom(c, k, Step(c, w, e), es[1..], (failed || (e.EndError? && w.started)) && !e.EndOk?);
    }
  }

  lemma TunedStep(c: Config, k: Cast, w: World, e: Event, failed: bool)
    requires Inv(c, k, w) && DistinctCells(c) && TunedUnless(w, failed) && Enabled(c, w, e)
    ensures TunedUnless(Step(c, w, e), (failed || (e.EndError? && w.started)) && !e.EndOk?)
  {
    if e.Start? {
      var tgt := w.request.value.tgt;
      var d := DonorByCell(c.cells)[c.cells[tgt]];
      assert tgt <= d < |c.cells| && c.cells[d] == c.cells[tgt];
    }
  }
}
