/** No descendant is lost: the invariant of the handover protocol, over every run. */
module HandoverSafety {
  import opened Wrappers
  import opened Handover

  // ---------- The chain of migrations in flight ----------

  ghost predicate Bound(m: Migration) {
    m.src.Some? && m.tgt.Some? && m.src != m.tgt
  }

  ghost function Origin(m: Migration): Address
    requires Bound(m)
  {
    Address(m.src.value, m.oldRnti)
  }

  ghost function Destination(m: Migration): Address
    requires Bound(m)
  {
    Address(m.tgt.value, m.newRnti)
  }

  ghost predicate AllBound(q: seq<Scheduled>) {
    forall i :: 0 <= i < |q| ==> Bound(q[i].m)
  }

  /** Where migration i has to end: at the start of the next one, the last one at `last`. */
  ghost function NextStop(q: seq<Scheduled>, last: Address, i: nat): Address
    requires AllBound(q) && i < |q|
  {
    if i + 1 < |q| then Origin(q[i + 1].m) else last
  }

  ghost predicate Chained(q: seq<Scheduled>, last: Address)
    requires AllBound(q)
  {
    forall i :: 0 <= i < |q| ==> Destination(q[i].m) == NextStop(q, last, i)
  }

  /** Where the descendants are registered now: at the start of the first migration still to run. */
  ghost function Location(q: seq<Scheduled>, serving: Address): Address
    requires AllBound(q)
  {
    if q == [] then serving else Origin(q[0].m)
  }

  /** The IAB-MT's own descendants, and the relay state of everybody else. */
  datatype Cast = Cast(mine: set<Context>, others: Relays)

  ghost predicate Placed(k: Cast, r: Relays, here: Address) {
    forall a :: At(r, a) == (if a == here then k.mine else {}) + At(k.others, a)
  }

  ghost predicate Disjoint(k: Cast) {
    forall a :: At(k.others, a) !! k.mine
  }

  /** Nobody else is registered anywhere on the way. */
  ghost predicate PathClear(k: Cast, q: seq<Scheduled>, serving: Address)
    requires AllBound(q)
  {
    && At(k.others, Location(q, serving)) == {}
    && forall i :: 0 <= i < |q| ==> At(k.others, Destination(q[i].m)) == {}
  }

  /** Queued migrations are due in the order in which they were scheduled. */
  ghost predicate Ordered(q: seq<Scheduled>) {
    forall i, j :: 0 <= i < j < |q| ==> q[i].due <= q[j].due && q[i].uid < q[j].uid
  }

  ghost predicate DueBetween(q: seq<Scheduled>, nextUid: nat, now: real, latest: real) {
    forall i :: 0 <= i < |q| ==> q[i].uid < nextUid && now <= q[i].due <= latest
  }

  ghost predicate QueueInOrder(c: Config, w: World) {
    && (c.execDelay <= 0.0 ==> w.prog.queue == [])
    && Ordered(w.prog.queue)
    && DueBetween(w.prog.queue, w.prog.nextUid, w.now, w.lastEnd + c.execDelay)
    && w.lastEnd <= w.now
  }

  /** The captured tuple is exactly the outstanding request, whose source still serves the IAB-MT. */
  ghost predicate TupleHeld(c: Config, w: World) {
    && (w.prog.pending <==> w.request.Some?)
    && (w.request.Some? ==>
          && w.prog.src == Some(w.request.value.src) && w.prog.tgt == Some(w.request.value.tgt)
          && w.request.value.src != w.request.value.tgt
          && Address(w.request.value.src, w.prog.oldRnti) == w.serving
          && w.request.value.tgt < |c.cells|)
    && (w.request.Some? && w.started ==>
          w.prog.tuned == Some(DonorByCell(c.cells)[c.cells[w.request.value.tgt]]))
  }

  ghost predicate Inv(c: Config, k: Cast, w: World) {
    && Disjoint(k)
    && AllBound(w.prog.queue)
    && Chained(w.prog.queue, w.serving)
    && QueueInOrder(c, w)
    && TupleHeld(c, w)
    && PathClear(k, w.prog.queue, w.serving)
    && Placed(k, w.prog.relays, Location(w.prog.queue, w.serving))
  }

  /** The start of a run: the IAB-MT is attached, nothing is pending or queued. */
  ghost predicate Init(c: Config, k: Cast, w: World) {
    && Disjoint(k)
    && !w.prog.pending && !w.prog.aborted && w.prog.queue == []
    && w.request == None && !w.started && w.mtRnti == w.serving.rnti
    && w.now == w.lastEnd == w.lastTrigger == 0.0 && w.triggers == 0
    && At(k.others, w.serving) == {}
    && Placed(k, w.prog.relays, w.serving)
  }

  // ---------- One migration ----------

  /** What a migration does to every address of every donor, when its two donors differ. */
  lemma MigrateEffect(r: Relays, m: Migration, a: Address)
    requires Bound(m)
    ensures var ctx := At(r, Origin(m));
            At(Migrate(r, m), a) ==
              if a == Destination(m) then At(r, a) + ctx
              else if a.donor == m.src.value then At(r, a) - ctx
              else At(r, a)
  {
  }

  /** What any migration does to any address; with a donor missing, nothing. */
  lemma MigrateAnywhere(r: Relays, m: Migration, a: Address)
    ensures At(Migrate(r, m), a) ==
            if m.src.None? || m.tgt.None? then At(r, a)
            else
              var ctx := At(r, Address(m.src.value, m.oldRnti));
              var there := if a == Address(m.tgt.value, m.newRnti) then At(r, a) + ctx else At(r, a);
              if a.donor == m.src.value then there - ctx else there
  {
  }

  lemma MigrateMoves(k: Cast, r: Relays, m: Migration)
    requires Disjoint(k) && Bound(m) && Placed(k, r, Origin(m))
    requires At(k.others, Origin(m)) == {}
    ensures Placed(k, Migrate(r, m), Destination(m))
  {
    forall a ensures At(Migrate(r, m), a) == (if a == Destination(m) then k.mine else {}) + At(k.others, a) {
      MigrateEffect(r, m, a);
      assert At(r, Origin(m)) == k.mine;
    }
  }

  /** A migration keeps every descendant it exports exactly when its two donors differ (or it exports
      nothing): with equal donors the release removes what the import has just installed. */
  lemma MigrateConserves(r: Relays, m: Migration)
    requires m.src.Some? && m.tgt.Some?
    ensures var ctx := ExportIabDescendants(r, m.src.value, m.oldRnti);
            ctx <= At(Migrate(r, m), Address(m.tgt.value, m.newRnti)) <==> m.src != m.tgt || ctx == {}
  {
    var ctx := ExportIabDescendants(r, m.src.value, m.oldRnti);
    if m.src == m.tgt && ctx != {} {
      var x :| x in ctx;
      assert x !in At(Migrate(r, m), Address(m.tgt.value, m.newRnti));
    }
  }

  // ---------- Steps ----------

  /** Equal delays and first-in-first-out ties: only the oldest migration can run next. */
  lemma FiresInOrder(c: Config, w: World, i: nat)
    requires QueueInOrder(c, w)
    requires i < |w.prog.queue|
    ensures Earliest(w.prog.queue, i) <==> i == 0
  {
    var q := w.prog.queue;
    assert i > 0 ==> q[0].due <= q[i].due && q[0].uid < q[i].uid;
  }

  lemma ScheduleKeepsOrder(q: seq<Scheduled>, nextUid: nat, now: real, latest: real, at: real, x: Scheduled)
    requires Ordered(q) && DueBetween(q, nextUid, now, latest)
    requires forall i :: 0 <= i < |q| ==> at <= q[i].due
    requires x.uid == nextUid && latest <= x.due && at <= x.due
    ensures Ordered(q + [x]) && DueBetween(q + [x], nextUid + 1, at, x.due)
  {
  }

  lemma ChainExtended(q: seq<Scheduled>, last: Address, x: Scheduled)
    requires AllBound(q) && Chained(q, last) && Bound(x.m) && Origin(x.m) == last
    ensures AllBound(q + [x]) && Chained(q + [x], Destination(x.m))
    ensures Location(q + [x], Destination(x.m)) == Location(q, last)
  {
    var q' := q + [x];
    forall i | 0 <= i < |q'| ensures Destination(q'[i].m) == NextStop(q', Destination(x.m), i) {
      if i < |q| {
        assert q'[i] == q[i] && NextStop(q', Destination(x.m), i) == NextStop(q, last, i);
      }
    }
  }

  lemma PathClearExtended(k: Cast, q: seq<Scheduled>, last: Address, x: Scheduled)
    requires AllBound(q) && Chained(q, last) && PathClear(k, q, last)
    requires Bound(x.m) && Origin(x.m) == last && At(k.others, Destination(x.m)) == {}
    ensures AllBound(q + [x]) && PathClear(k, q + [x], Destination(x.m))
  {
    ChainExtended(q, last, x);
    var q' := q + [x];
    forall i | 0 <= i < |q'| ensures At(k.others, Destination(q'[i].m)) == {} {
      assert i < |q| ==> q'[i] == q[i];
    }
  }

  /** The migration that EndOk builds from the captured tuple runs from the old serving address to the new. */
  lemma EndOkMigration(c: Config, k: Cast, w: World, at: real, rnti: nat)
    requires Inv(c, k, w) && Enabled(c, w, EndOk(at, rnti))
    ensures var m := Migration(w.prog.src, w.prog.tgt, w.prog.oldRnti, rnti);
            && Bound(m) && Origin(m) == w.serving
            && Destination(m) == Step(c, w, EndOk(at, rnti)).serving
            && At(k.others, Destination(m)) == {}
  {
    var here := Address(w.request.value.tgt, rnti);
    assert At(w.prog.relays, here) == {};
  }

  lemma EndOkDeferred(c: Config, k: Cast, w: World, at: real, rnti: nat)
    requires Inv(c, k, w) && Enabled(c, w, EndOk(at, rnti)) && c.execDelay > 0.0
    ensures Inv(c, k, Step(c, w, EndOk(at, rnti)))
    ensures var w' := Step(c, w, EndOk(at, rnti)); var n := |w.prog.queue|;
            && |w'.prog.queue| == n + 1 && w'.prog.queue[..n] == w.prog.queue
            && Origin(w'.prog.queue[n].m) == w.serving && Destination(w'.prog.queue[n].m) == w'.serving
            && w'.prog.queue[n].due == at + c.execDelay
  {
    EndOkMigration(c, k, w, at, rnti);
    var q, m := w.prog.queue, Migration(w.prog.src, w.prog.tgt, w.prog.oldRnti, rnti);
    var x := Scheduled(at + c.execDelay, w.prog.nextUid, m);
    assert Step(c, w, EndOk(at, rnti)).prog.queue == q + [x];
    ChainExtended(q, w.serving, x);
    PathClearExtended(k, q, w.serving, x);
    ScheduleKeepsOrder(q, w.prog.nextUid, w.now, w.lastEnd + c.execDelay, at, x);
  }

  lemma EndOkImmediate(c: Config, k: Cast, w: World, at: real, rnti: nat)
    requires Inv(c, k, w) && Enabled(c, w, EndOk(at, rnti)) && c.execDelay <= 0.0
    ensures Inv(c, k, Step(c, w, EndOk(at, rnti)))
    ensures var w' := Step(c, w, EndOk(at, rnti));
            Placed(k, w.prog.relays, w.serving) && Placed(k, w'.prog.relays, w'.serving)
  {
    EndOkMigration(c, k, w, at, rnti);
    MigrateMoves(k, w.prog.relays, Migration(w.prog.src, w.prog.tgt, w.prog.oldRnti, rnti));
  }

  lemma ChainAfterFirst(q: seq<Scheduled>, last: Address)
    requires q != [] && AllBound(q) && Chained(q, last)
    ensures AllBound(q[1..]) && Chained(q[1..], last)
    ensures Location(q[1..], last) == Destination(q[0].m)
  {
    assert NextStop(q, last, 0) == Location(q[1..], last);
    forall j | 0 <= j < |q[1..]| ensures Destination(q[1..][j].m) == NextStop(q[1..], last, j) {
      assert q[1..][j] == q[j + 1] && NextStop(q[1..], last, j) == NextStop(q, last, j + 1);
    }
  }

  lemma RestKeepsOrder(q: seq<Scheduled>, nextUid: nat, now: real, latest: real)
    requires q != [] && Ordered(q) && DueBetween(q, nextUid, now, latest)
    ensures Ordered(q[1..]) && DueBetween(q[1..], nextUid, q[0].due, latest)
  {
    assert forall j :: 0 <= j < |q| - 1 ==> q[1..][j] == q[j + 1];
  }

  lemma PathClearAfterFirst(k: Cast, q: seq<Scheduled>, last: Address)
    requires q != [] && AllBound(q) && Chained(q, last) && PathClear(k, q, last)
    ensures AllBound(q[1..]) && PathClear(k, q[1..], last)
  {
    ChainAfterFirst(q, last);
    assert forall j :: 0 <= j < |q| - 1 ==> q[1..][j] == q[j + 1];
  }

  lemma FireKeepsInv(c: Config, k: Cast, w: World, at: real, i: nat)
    requires Inv(c, k, w) && Enabled(c, w, Fire(at, i))
    ensures Inv(c, k, Step(c, w, Fire(at, i)))
    ensures var w', m := Step(c, w, Fire(at, i)), w.prog.queue[0].m;
            && w'.prog.queue == w.prog.queue[1..]
            && Placed(k, w.prog.relays, Origin(m)) && Placed(k, w'.prog.relays, Destination(m))
  {
    FiresInOrder(c, w, i);
    var q := w.prog.queue;
    assert Step(c, w, Fire(at, i)).prog.queue == q[1..];
    ChainAfterFirst(q, w.serving);
    PathClearAfterFirst(k, q, w.serving);
    RestKeepsOrder(q, w.prog.nextUid, w.now, w.lastEnd + c.execDelay);
    MigrateMoves(k, w.prog.relays, q[0].m);
  }

  lemma StepKeepsInv(c: Config, k: Cast, w: World, e: Event)
    requires Inv(c, k, w) && Enabled(c, w, e)
    ensures Inv(c, k, Step(c, w, e))
  {
    match e
    case Trigger(_, _, _, _) =>
    case Start(_, _) =>
    case EndOk(at, rnti) =>
      if c.execDelay > 0.0 {
        EndOkDeferred(c, k, w, at, rnti);
      } else {
        EndOkImmediate(c, k, w, at, rnti);
      }
    case EndError(_, _) =>
    case Fire(at, i) => FireKeepsInv(c, k, w, at, i);
  }

  // ---------- Runs ----------

  ghost predicate Feasible(c: Config, w: World, es: seq<Event>)
    decreases |es|
  {
    es != [] ==> Enabled(c, w, es[0]) && Feasible(c, Step(c, w, es[0]), es[1..])
  }

  ghost function Run(c: Config, w: World, es: seq<Event>): World
    requires Feasible(c, w, es)
    decreases |es|
  {
    if es == [] then w else Run(c, Step(c, w, es[0]), es[1..])
  }

  lemma {:induction false} RunKeepsInv(c: Config, k: Cast, w: World, es: seq<Event>)
    requires Inv(c, k, w) && Feasible(c, w, es)
    ensures Inv(c, k, Run(c, w, es))
    decreases |es|
  {
    if es == [] {
    } else {
      StepKeepsInv(c, k, w, es[0]);
      RunKeepsInv(c, k, Step(c, w, es[0]), es[1..]);
    }
  }
}
