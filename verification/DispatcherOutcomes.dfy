/** What becomes of each test, in terms of the events of a run alone: who handled it, when, and with what result. */
module DispatcherOutcomes {
  import opened Tally
  import opened Dispatcher
  import opened DispatcherResults
  import DispatcherProgram

  // ---------- The handling of a test ----------

  /** A worker looked at this test, after an interrupt or not; running it would give this return code. */
  datatype Handling = Handling(id: nat, interrupted: bool, returncode: int)

  /** All handlings in a run, in order, given whether there was an interrupt before it. */
  ghost function Handlings(c: Config, s: State, es: seq<Event>, interrupted: bool): seq<Handling>
    requires Feasible(c, s, es)
    decreases |es|
  {
    if es == [] then []
    else
      HandledBy(s, es[0], interrupted) + Handlings(c, Step(c, s, es[0]), es[1..], interrupted || es[0] == Interrupt)
  }

  ghost function HandledBy(s: State, e: Event, interrupted: bool): seq<Handling> {
    if e.Work? && e.w < |s.workers| && s.workers[e.w].Holding?
    then [Handling(s.workers[e.w].job.id, interrupted, e.returncode)]
    else []
  }

  /** The job came out of this handling: re-marked exactly when that came after an interrupt, and with the return
      code of its run unless it was re-marked or is to be skipped. */
  ghost predicate Outcome(h: Handling, j: Job) {
    && h.id == j.id
    && (j.isBreak <==> h.interrupted)
    && (!j.isBreak && !j.isSkip ==> j.returncode == h.returncode)
  }

  ghost predicate Told(log: seq<Handling>, j: Job) {
    exists k :: 0 <= k < |log| && Outcome(log[k], j)
  }

  ghost function ForId(id: nat): Handling -> nat {
    (h: Handling) => if h.id == id then 1 else 0
  }

  ghost function WaitingOn(id: nat): Worker -> nat {
    (w: Worker) => if w.Holding? && w.job.id == id then 1 else 0
  }

  /** A test waits until it is handled, and is handled once. */
  ghost function Turns(s: State, log: seq<Handling>, id: nat): nat {
    Total(s.inputQueue, Queued(id)) + Total(s.workers, WaitingOn(id)) + Total(log, ForId(id))
  }

  ghost predicate Accounted(s: State, log: seq<Handling>, interrupted: bool) {
    && s.threadExit == interrupted
    && (forall id: nat :: Turns(s, log, id) == if id < s.dispatched then 1 else 0)
    && (forall w :: 0 <= w < |s.workers| && s.workers[w].Holding? ==> !s.workers[w].job.isBreak)
    && (forall w :: 0 <= w < |s.workers| && s.workers[w].Finished? ==> Told(log, s.workers[w].job))
    && (forall i :: 0 <= i < |s.outputQueue| ==> Told(log, s.outputQueue[i]))
    && (forall i :: 0 <= i < |s.collected| ==> Told(log, s.collected[i]))
  }

  lemma StepTurns(c: Config, s: State, e: Event, log: seq<Handling>, interrupted: bool, id: nat)
    requires Enabled(c, s, e)
    ensures Turns(Step(c, s, e), log + HandledBy(s, e, interrupted), id) ==
            Turns(s, log, id) + if e.Dispatch? && id == s.dispatched then 1 else 0
  {
    assert log + [] == log;
    match e
    case Dispatch => TotalAppend(s.inputQueue, NewJob(s.dispatched, c.skips[s.dispatched]), Queued(id));
    case SendBreak => TotalAppend(s.inputQueue, BREAK_JOB, Queued(id));
    case Get(w) => TotalUpdate(s.workers, w, Step(c, s, e).workers[w], WaitingOn(id));
    case Work(w, returncode) =>
      TotalUpdate(s.workers, w, Step(c, s, e).workers[w], WaitingOn(id));
      TotalAppend(log, Handling(s.workers[w].job.id, interrupted, returncode), ForId(id));
    case Put(w) => TotalUpdate(s.workers, w, Idle, WaitingOn(id));
    case _ =>
  }

  lemma ToldLater(log: seq<Handling>, more: seq<Handling>, j: Job)
    requires Told(log, j)
    ensures Told(log + more, j)
  {
    var k :| 0 <= k < |log| && Outcome(log[k], j);
    assert (log + more)[k] == log[k];
  }

  lemma AllToldLater(s: State, log: seq<Handling>, more: seq<Handling>)
    requires Accounted(s, log, s.threadExit)
    ensures forall w :: 0 <= w < |s.workers| && s.workers[w].Finished? ==> Told(log + more, s.workers[w].job)
    ensures forall i :: 0 <= i < |s.outputQueue| ==> Told(log + more, s.outputQueue[i])
    ensures forall i :: 0 <= i < |s.collected| ==> Told(log + more, s.collected[i])
  {
    forall j | Told(log, j) ensures Told(log + more, j) {
      ToldLater(log, more, j);
    }
  }

  lemma StepAccounts(c: Config, s: State, e: Event, log: seq<Handling>, interrupted: bool)
    requires Accounted(s, log, interrupted) && Enabled(c, s, e)
    ensures Accounted(Step(c, s, e), log + HandledBy(s, e, interrupted), interrupted || e == Interrupt)
  {
    var s', more := Step(c, s, e), HandledBy(s, e, interrupted);
    forall id: nat ensures Turns(s', log + more, id) == if id < s'.dispatched then 1 else 0 {
      StepTurns(c, s, e, log, interrupted, id);
    }
    AllToldLater(s, log, more);
    if e.Work? {
      assert (log + more)[|log|] == more[0] && Outcome(more[0], s'.workers[e.w].job);
    }
  }

  lemma {:induction false} RunAccounts(c: Config, s: State, es: seq<Event>, log: seq<Handling>, interrupted: bool)
    requires Accounted(s, log, interrupted) && Feasible(c, s, es)
    ensures Accounted(Run(c, s, es), log + Handlings(c, s, es, interrupted), interrupted || Interrupt in es)
    decreases |es|
  {
    if es == [] {
      assert log + [] == log;
    } else {
      var e, more := es[0], HandledBy(s, es[0], interrupted);
      StepAccounts(c, s, e, log, interrupted);
      RunAccounts(c, Step(c, s, e), es[1..], log + more, interrupted || e == Interrupt);
      var rest := Handlings(c, Step(c, s, e), es[1..], interrupted || e == Interrupt);
      assert log + more + rest == log + (more + rest);
      assert Interrupt in es <==> e == Interrupt || Interrupt in es[1..];
    }
  }

  ghost function LogOf(c: Config, es: seq<Event>): seq<Handling>
    requires Feasible(c, Start(c), es)
  {
    Handlings(c, Start(c), es, false)
  }

  lemma LogAccounts(c: Config, es: seq<Event>)
    requires Feasible(c, Start(c), es)
    ensures Accounted(Run(c, Start(c), es), LogOf(c, es), Interrupt in es)
  {
    var s := Start(c);
    forall id: nat ensures Turns(s, [], id) == 0 {
      TotalZero(s.workers, WaitingOn(id));
    }
    RunAccounts(c, s, es, [], false);
    assert [] + LogOf(c, es) == LogOf(c, es);
  }

  lemma OneHandling(s: State, log: seq<Handling>, interrupted: bool, k: nat, l: nat)
    requires Accounted(s, log, interrupted) && k < |log| && l < |log| && log[k].id == log[l].id
    ensures k == l
  {
    assert Turns(s, log, log[k].id) <= 1;
    if k < l {
      TotalTwo(log, k, l, ForId(log[k].id));
    } else if l < k {
      TotalTwo(log, l, k, ForId(log[k].id));
    }
  }

  /** Handling k, and no other, is of the test of this job, and the job came out of it. */
  ghost predicate OnlyOutcome(log: seq<Handling>, j: Job, k: nat) {
    k < |log| && Outcome(log[k], j) && forall l :: 0 <= l < |log| && log[l].id == j.id ==> l == k
  }

  /** Each test is handled at most once in a run, and a collected job is what its own handling made of it: re-marked
      if and only if that came after an interrupt, otherwise with the return code of its run unless skipped. */
  lemma CollectedAsHandled(c: Config, es: seq<Event>, i: nat)
    requires Feasible(c, Start(c), es) && i < |Run(c, Start(c), es).collected|
    ensures var j, log := Run(c, Start(c), es).collected[i], LogOf(c, es);
            exists k: nat :: OnlyOutcome(log, j, k)
  {
    LogAccounts(c, es);
    var s, log := Run(c, Start(c), es), LogOf(c, es);
    var j := s.collected[i];
    assert Told(log, j);
    var k :| 0 <= k < |log| && Outcome(log[k], j);
    forall l | 0 <= l < |log| && log[l].id == j.id ensures l == k {
      OneHandling(s, log, Interrupt in es, k, l);
    }
    assert OnlyOutcome(log, j, k);
  }

  // ---------- The exit code of a run ----------

  /** Handled before any interrupt, and skipped or run with return code 0. */
  ghost predicate Well(c: Config, h: Handling) {
    h.id < |c.skips| && !h.interrupted && (c.skips[h.id] || h.returncode == 0)
  }

  ghost predicate AllWell(c: Config, log: seq<Handling>) {
    forall k :: 0 <= k < |log| ==> Well(c, log[k])
  }

  lemma {:induction false} OnesThere<T>(xs: seq<T>, f: T -> nat) returns (i: nat)
    requires Total(xs, f) > 0
    ensures i < |xs| && f(xs[i]) > 0
  {
    if f(xs[0]) > 0 {
      i := 0;
    } else {
      i := OnesThere(xs[1..], f);
      i := i + 1;
    }
  }

  /** When the master is done, the job of every handling has been collected. */
  lemma HandledIsCollected(c: Config, es: seq<Event>, k: nat) returns (i: nat)
    requires Feasible(c, Start(c), es) && Done(c, Run(c, Start(c), es)) && k < |LogOf(c, es)|
    ensures var s := Run(c, Start(c), es); i < |s.collected| && Outcome(LogOf(c, es)[k], s.collected[i])
    ensures LogOf(c, es)[k].id < |c.skips|
  {
    var s, log := Run(c, Start(c), es), LogOf(c, es);
    var id := log[k].id;
    LogAccounts(c, es);
    ReachableInv(c, es);
    TotalPositive(log, k, ForId(id));
    assert Turns(s, log, id) == 1;
    DoneIsClean(c, s);
    TotalZero(s.workers, Held(id));
    assert Copies(s, id) == Total(s.collected, Reported(id)) == 1;
    i := OnesThere(s.collected, Reported(id));
    var l :| 0 <= l < |log| && Outcome(log[l], s.collected[i]);
    OneHandling(s, log, Interrupt in es, k, l);
  }

  /** All jobs of a complete run came back for real, skipped or with return code 0, exactly when every test was
      handled before any interrupt, and was skipped or returned 0. */
  lemma RunSucceeds(c: Config, es: seq<Event>)
    requires Feasible(c, Start(c), es) && Done(c, Run(c, Start(c), es))
    ensures AllGood(Run(c, Start(c), es).collected) <==> AllWell(c, LogOf(c, es))
  {
    var s, log := Run(c, Start(c), es), LogOf(c, es);
    LogAccounts(c, es);
    if AllGood(s.collected) {
      forall k | 0 <= k < |log| ensures Well(c, log[k]) {
        var i := HandledIsCollected(c, es, k);
        CollectedAreGenuine(c, es, i);
      }
    }
    if AllWell(c, log) {
      forall i | 0 <= i < |s.collected| ensures Good(s.collected[i]) {
        CollectedAreGenuine(c, es, i);
        var k :| 0 <= k < |log| && Outcome(log[k], s.collected[i]);
        assert Well(c, log[k]);
      }
    }
  }

  /** The whole program: a complete run on the mutable state, and the exit code it ends with. */
  method RunTests(run: DispatcherProgram.TestRun, es: seq<Event>) returns (code: int)
    requires run.Now() == Start(run.Plan()) && Feasible(run.Plan(), run.Now(), es)
    requires Done(run.Plan(), Run(run.Plan(), run.Now(), es))
    modifies run
    ensures code == 0 || code == 1
    ensures code == 0 <==> AllWell(run.Plan(), LogOf(run.Plan(), es))
  {
    ghost var c := run.Plan();
    RunSucceeds(c, es);
    DispatcherProgram.RunThreads(run, es);
    var passed, skipped, failed, valgrind, crashed;
    code, passed, skipped, failed, valgrind, crashed := ExitCode(run.collected, |run.collected|);
  }

  // ---------- First in, first out ----------

  /** The tests that workers took off the input queue, in the order in which they did. */
  ghost function Taken(c: Config, s: State, es: seq<Event>): seq<nat>
    requires Feasible(c, s, es)
    decreases |es|
  {
    if es == [] then []
    else
      var e, s' := es[0], Step(c, s, es[0]);
      (if e.Get? && s'.workers[e.w].Holding? then [s'.workers[e.w].job.id] else []) + Taken(c, s', es[1..])
  }

  /** The jobs that workers reported, in the order in which they did. */
  ghost function PutOrder(c: Config, s: State, es: seq<Event>): seq<Job>
    requires Feasible(c, s, es)
    decreases |es|
  {
    if es == [] then []
    else (if es[0].Put? then [s.workers[es[0].w].job] else []) + PutOrder(c, Step(c, s, es[0]), es[1..])
  }

  ghost function RealIds(q: seq<Job>): seq<nat> {
    if q == [] then [] else RealIds(q[..|q| - 1]) + if q[|q| - 1].isBreak then [] else [q[|q| - 1].id]
  }

  ghost function UpTo(n: nat): seq<nat> {
    if n == 0 then [] else UpTo(n - 1) + [n - 1]
  }

  lemma {:induction false} RealIdsOfRest(q: seq<Job>)
    requires q != []
    ensures RealIds(q) == (if q[0].isBreak then [] else [q[0].id]) + RealIds(q[1..])
  {
    if |q| == 1 {
      assert q[..0] == [] && q[1..] == [];
    } else {
      var n := |q| - 1;
      RealIdsOfRest(q[..n]);
      assert q[..n][1..] == q[1..][..n - 1] && q[1..][n - 1] == q[n];
    }
  }

  lemma RealIdsOfMore(q: seq<Job>, j: Job)
    ensures RealIds(q + [j]) == RealIds(q) + if j.isBreak then [] else [j.id]
  {
    assert (q + [j])[..|q|] == q;
  }

  lemma StepTakes(c: Config, s: State, e: Event, taken: seq<nat>)
    requires Enabled(c, s, e) && taken + RealIds(s.inputQueue) == UpTo(s.dispatched)
    ensures var s' := Step(c, s, e);
            taken + (if e.Get? && s'.workers[e.w].Holding? then [s'.workers[e.w].job.id] else [])
              + RealIds(s'.inputQueue) == UpTo(s'.dispatched)
  {
    match e
    case Dispatch => RealIdsOfMore(s.inputQueue, NewJob(s.dispatched, c.skips[s.dispatched]));
    case SendBreak => RealIdsOfMore(s.inputQueue, BREAK_JOB);
    case Get(w) => GetTakes(c, s, w, taken);
    case _ =>
  }

  lemma GetTakes(c: Config, s: State, w: nat, taken: seq<nat>)
    requires Enabled(c, s, Get(w)) && taken + RealIds(s.inputQueue) == UpTo(s.dispatched)
    ensures var s' := Step(c, s, Get(w));
            taken + (if s'.workers[w].Holding? then [s'.workers[w].job.id] else [])
              + RealIds(s'.inputQueue) == UpTo(s'.dispatched)
  {
    var job, rest := s.inputQueue[0], s.inputQueue[1..];
    RealIdsOfRest(s.inputQueue);
    assert taken + ((if job.isBreak then [] else [job.id]) + RealIds(rest)) ==
           taken + (if job.isBreak then [] else [job.id]) + RealIds(rest);
  }

  lemma {:induction false} RunTakes(c: Config, s: State, es: seq<Event>, taken: seq<nat>)
    requires Feasible(c, s, es) && taken + RealIds(s.inputQueue) == UpTo(s.dispatched)
    ensures var s' := Run(c, s, es); taken + Taken(c, s, es) + RealIds(s'.inputQueue) == UpTo(s'.dispatched)
    decreases |es|
  {
    if es == [] {
      assert taken + [] == taken;
    } else {
      var e, s' := es[0], Step(c, s, es[0]);
      var more := if e.Get? && s'.workers[e.w].Holding? then [s'.workers[e.w].job.id] else [];
      StepTakes(c, s, e, taken);
      RunTakes(c, s', es[1..], taken + more);
      assert taken + more + Taken(c, s', es[1..]) == taken + (more + Taken(c, s', es[1..]));
    }
  }

  /** Tests are taken in the order in which they were dispatched, and nobody is overtaken in the queue. */
  lemma TakenInOrder(c: Config, es: seq<Event>)
    requires Feasible(c, Start(c), es)
    ensures var s := Run(c, Start(c), es); Taken(c, Start(c), es) + RealIds(s.inputQueue) == UpTo(s.dispatched)
  {
    RunTakes(c, Start(c), es, []);
    assert [] + Taken(c, Start(c), es) == Taken(c, Start(c), es);
  }

  /** Jobs are collected in the order in which they were reported. */
  lemma {:induction false} CollectedInOrder(c: Config, s: State, es: seq<Event>)
    requires Feasible(c, s, es)
    ensures var s' := Run(c, s, es);
            s'.collected + s'.outputQueue == s.collected + s.outputQueue + PutOrder(c, s, es)
    decreases |es|
  {
    if es == [] {
    } else {
      var e, s' := es[0], Step(c, s, es[0]);
      CollectedInOrder(c, s', es[1..]);
      if e.Collect? {
        assert s'.collected + s'.outputQueue == s.collected + s.outputQueue;
      }
    }
  }

  /** In a complete run every test is handled. */
  lemma EveryTestHandled(c: Config, es: seq<Event>, id: nat) returns (k: nat)
    requires Feasible(c, Start(c), es) && Done(c, Run(c, Start(c), es)) && id < |c.skips|
    ensures k < |LogOf(c, es)| && LogOf(c, es)[k].id == id
  {
    var s, log := Run(c, Start(c), es), LogOf(c, es);
    LogAccounts(c, es);
    ReachableInv(c, es);
    DoneIsClean(c, s);
    TotalZero(s.workers, WaitingOn(id));
    assert Turns(s, log, id) == 1;
    k := OnesThere(log, ForId(id));
  }
}
