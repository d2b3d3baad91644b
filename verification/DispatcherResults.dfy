/** Deadlock freedom, termination and the final state of the dispatcher, over every interleaving. */
module DispatcherResults {
  import opened Tally
  import opened Dispatcher
  import opened Selection

  // ---------- Conservation over runs ----------

  lemma ReachableInv(c: Config, es: seq<Event>)
    requires Feasible(c, Start(c), es)
    ensures Inv(c, Run(c, Start(c), es))
  {
    StartInv(c);
    RunKeepsInv(c, Start(c), es);
  }

  /** In every reachable state a dispatched test is in exactly one of the input queue, a worker's hands, the
      output queue and the collected list, and no worker has left while a real job is queued. */
  lemma EachJobInOnePlace(c: Config, es: seq<Event>, id: nat)
    requires Feasible(c, Start(c), es)
    ensures var s := Run(c, Start(c), es);
            && Copies(s, id) == (if id < s.dispatched then 1 else 0)
            && ((exists i :: 0 <= i < |s.inputQueue| && !s.inputQueue[i].isBreak) ==>
                  forall w :: 0 <= w < |s.workers| ==> !s.workers[w].Exited?)
  {
    ReachableInv(c, es);
    var s := Run(c, Start(c), es);
    forall w | 0 <= w < |s.workers| && s.workers[w].Exited?
      ensures forall i :: 0 <= i < |s.inputQueue| ==> s.inputQueue[i].isBreak
    {
      TotalPositive(s.workers, w, Gone);
    }
  }

  // ---------- Deadlock freedom ----------

  /** Somebody other than the signal handler can move. */
  ghost predicate CanMove(c: Config, s: State) {
    exists e :: Enabled(c, s, e) && e != Interrupt
  }

  /** Once the last break is sent an idle worker always finds something in the queue, whatever the others do. */
  lemma IdleWorkerFindsWork(c: Config, s: State, w: nat)
    requires Inv(c, s) && s.breaksSent == c.processors && w < |s.workers| && s.workers[w].Idle?
    ensures s.inputQueue != []
  {
    TotalOfFlags(s.workers, Gone);
  }

  /** An uncollected job that nobody holds or has reported is still queued, so every worker is still there. */
  lemma UncollectedIsQueued(c: Config, s: State)
    requires Inv(c, s) && s.dispatched == |c.skips| && |s.collected| < |c.skips| && s.outputQueue == []
    requires forall w :: 0 <= w < |s.workers| ==> s.workers[w].Idle? || s.workers[w].Exited?
    ensures s.inputQueue != []
    ensures forall w :: 0 <= w < |s.workers| ==> s.workers[w].Idle?
  {
    TotalZero(s.workers, Busy);
    assert Total(s.inputQueue, Real) > 0;
    if forall i :: 0 <= i < |s.inputQueue| ==> s.inputQueue[i].isBreak {
      TotalZero(s.inputQueue, Real);
    }
    forall w | 0 <= w < |s.workers| && s.workers[w].Exited? ensures false {
      TotalPositive(s.workers, w, Gone);
    }
  }

  /** With at least one worker, or nothing to do, every reachable state that is not final can move on. */
  lemma NoDeadlock(c: Config, s: State)
    requires Inv(c, s) && !Done(c, s) && (c.processors > 0 || c.skips == [])
    ensures CanMove(c, s)
  {
    if s.dispatched < |c.skips| {
      assert Enabled(c, s, Dispatch);
    } else if s.breaksSent < c.processors {
      assert Enabled(c, s, SendBreak);
    } else if w :| 0 <= w < |s.workers| && s.workers[w].Holding? {
      assert Enabled(c, s, Work(w, 0));
    } else if w :| 0 <= w < |s.workers| && s.workers[w].Finished? {
      assert Enabled(c, s, Put(w));
    } else if |s.collected| < |c.skips| {
      if s.outputQueue != [] {
        assert Enabled(c, s, Collect);
      } else {
        UncollectedIsQueued(c, s);
        assert Enabled(c, s, Get(0));
      }
    } else if s.workers[s.joined].Exited? {
      assert Enabled(c, s, Join);
    } else {
      IdleWorkerFindsWork(c, s, s.joined);
      assert Enabled(c, s, Get(s.joined));
    }
  }

  ghost predicate NobodyReports(s: State) {
    s.workers == [] && s.outputQueue == [] && s.collected == []
  }

  lemma {:induction false} NobodyEverReports(c: Config, s: State, es: seq<Event>)
    requires NobodyReports(s) && Feasible(c, s, es)
    ensures NobodyReports(Run(c, s, es))
    decreases |es|
  {
    if es == [] {
    } else {
      NobodyEverReports(c, Step(c, s, es[0]), es[1..]);
    }
  }

  /** The dispatcher is free of deadlock exactly when there is a worker or nothing to do: without a worker it
      blocks in its first collecting get once everything is dispatched. */
  lemma DeadlockFreeIff(c: Config)
    ensures (c.processors > 0 || c.skips == []) <==>
            forall es :: Feasible(c, Start(c), es) ==> var s := Run(c, Start(c), es); Done(c, s) || CanMove(c, s)
  {
    if c.processors > 0 || c.skips == [] {
      forall es | Feasible(c, Start(c), es)
        ensures var s := Run(c, Start(c), es); Done(c, s) || CanMove(c, s)
      {
        ReachableInv(c, es);
        if !Done(c, Run(c, Start(c), es)) {
          NoDeadlock(c, Run(c, Start(c), es));
        }
      }
    } else {
      var es := DispatchAll(c, Start(c));
      NobodyEverReports(c, Start(c), es);
      var s := Run(c, Start(c), es);
      assert !Done(c, s) && !CanMove(c, s);
    }
  }

  /** The run that dispatches everything there is left to dispatch. */
  lemma DispatchAll(c: Config, s: State) returns (es: seq<Event>)
    requires s.dispatched <= |c.skips|
    ensures Feasible(c, s, es) && Run(c, s, es).dispatched == |c.skips|
    decreases |c.skips| - s.dispatched
  {
    if s.dispatched == |c.skips| {
      es := [];
    } else {
      var rest := DispatchAll(c, Step(c, s, Dispatch));
      es := [Dispatch] + rest;
      assert es[1..] == rest;
    }
  }

  // ---------- Termination ----------

  /** Steps a job still has before it: get, work, put, collect. */
  ghost function QueueSteps(j: Job): nat { if j.isBreak then 1 else 4 }

  ghost function WorkerSteps(w: Worker): nat {
    if w.Holding? then 3 else if w.Finished? then 2 else 0
  }

  ghost function StepsLeft(c: Config, s: State): int {
    5 * (|c.skips| - s.dispatched) + 2 * (c.processors - s.breaksSent) + (c.processors - s.joined)
      + Total(s.inputQueue, QueueSteps) + Total(s.workers, WorkerSteps) + |s.outputQueue|
  }

  /** Every step but an interrupt uses up exactly one of them. */
  lemma StepCountsDown(c: Config, s: State, e: Event)
    requires Enabled(c, s, e)
    ensures StepsLeft(c, Step(c, s, e)) == StepsLeft(c, s) - if e == Interrupt then 0 else 1
  {
    match e
    case Dispatch => TotalAppend(s.inputQueue, NewJob(s.dispatched, c.skips[s.dispatched]), QueueSteps);
    case SendBreak => TotalAppend(s.inputQueue, BREAK_JOB, QueueSteps);
    case Get(w) => TotalUpdate(s.workers, w, Step(c, s, e).workers[w], WorkerSteps);
    case Work(w, _) => TotalUpdate(s.workers, w, Step(c, s, e).workers[w], WorkerSteps);
    case Put(w) => TotalUpdate(s.workers, w, Idle, WorkerSteps);
    case _ =>
  }

  function Moves(es: seq<Event>): nat {
    if es == [] then 0 else (if es[0] == Interrupt then 0 else 1) + Moves(es[1..])
  }

  lemma {:induction false} RunCountsDown(c: Config, s: State, es: seq<Event>)
    requires Feasible(c, s, es)
    ensures StepsLeft(c, Run(c, s, es)) == StepsLeft(c, s) - Moves(es)
    decreases |es|
  {
    if es == [] {
    } else {
      StepCountsDown(c, s, es[0]);
      RunCountsDown(c, Step(c, s, es[0]), es[1..]);
    }
  }

  lemma {:induction false} RealOrBreak(q: seq<Job>)
    ensures Total(q, Real) + Total(q, Breaks) == |q|
  {
    if q == [] {
    } else {
      RealOrBreak(q[1..]);
    }
  }

  /** What is left when the master is done: nothing queued or held, and every worker gone. */
  lemma DoneIsClean(c: Config, s: State)
    requires Inv(c, s) && Done(c, s)
    ensures s.inputQueue == [] && s.outputQueue == []
    ensures forall w :: 0 <= w < |s.workers| ==> s.workers[w].Exited?
    ensures StepsLeft(c, s) == 0
  {
    TotalOfFlags(s.workers, Gone);
    assert Total(s.inputQueue, Real) == 0 && Total(s.inputQueue, Breaks) == 0;
    RealOrBreak(s.inputQueue);
    TotalZero(s.workers, WorkerSteps);
  }

  /** Every run terminates, whatever the interleaving and the interrupts: it has at most 5 steps a test and 3
      a worker, and a run that cannot move any further (with a worker, or nothing to do) is complete: it has
      exactly that many, all workers have left and each test was collected exactly once. */
  lemma EveryRunTerminates(c: Config, es: seq<Event>)
    requires Feasible(c, Start(c), es)
    ensures Moves(es) <= 5 * |c.skips| + 3 * c.processors
    ensures var s := Run(c, Start(c), es);
            !CanMove(c, s) && (c.processors > 0 || c.skips == []) ==>
              && Done(c, s) && Moves(es) == 5 * |c.skips| + 3 * c.processors
              && (forall w :: 0 <= w < |s.workers| ==> s.workers[w].Exited?)
              && (forall id: nat :: Total(s.collected, Reported(id)) == if id < |c.skips| then 1 else 0)
  {
    var s0 := Start(c);
    var s := Run(c, s0, es);
    ReachableInv(c, es);
    RunCountsDown(c, s0, es);
    TotalZero(s0.workers, WorkerSteps);
    assert StepsLeft(c, s) >= 0;
    if !CanMove(c, s) && (c.processors > 0 || c.skips == []) {
      if !Done(c, s) {
        NoDeadlock(c, s);
      }
      DoneIsClean(c, s);
      forall id: nat ensures Total(s.collected, Reported(id)) == if id < |c.skips| then 1 else 0 {
        TotalZero(s.workers, Held(id));
        assert Copies(s, id) == Total(s.collected, Reported(id));
      }
    }
  }

  // ---------- The collecting loop and the exit code ----------

  /** The job came back for real, and was skipped or passed. */
  ghost predicate Good(j: Job) {
    !j.isBreak && (j.isSkip || j.returncode == 0)
  }

  ghost predicate AllGood(jobs: seq<Job>) {
    forall i :: 0 <= i < |jobs| ==> Good(jobs[i])
  }

  /** How the master classifies a collected job. */
  datatype Verdict = Ignored | Skip | Pass | Fail | Valgrind | Crash

  function VerdictOf(j: Job): Verdict {
    if j.isBreak then Ignored
    else if j.isSkip then Skip
    else if j.returncode == 0 then Pass
    else if j.returncode == 1 then Fail
    else if j.returncode == 2 then Valgrind
    else Crash
  }

  /** The tests collected with a verdict, in the order they were collected. */
  function Listed(jobs: seq<Job>, v: Verdict): seq<nat> {
    if jobs == [] then []
    else
      var last := jobs[|jobs| - 1];
      Listed(jobs[..|jobs| - 1], v) + if VerdictOf(last) == v then [last.id] else []
  }

  /** The verdicts split the collected jobs: skipped and passed ones make up all of them exactly when every
      job was reported for real and was skipped or returned 0. */
  lemma {:induction false} VerdictsPartition(jobs: seq<Job>)
    ensures |Listed(jobs, Ignored)| + |Listed(jobs, Skip)| + |Listed(jobs, Pass)|
              + |Listed(jobs, Fail)| + |Listed(jobs, Valgrind)| + |Listed(jobs, Crash)| == |jobs|
    ensures |Listed(jobs, Skip)| + |Listed(jobs, Pass)| == |jobs| <==> AllGood(jobs)
  {
    if jobs == [] {
    } else {
      var n := |jobs| - 1;
      VerdictsPartition(jobs[..n]);
      assert AllGood(jobs) <==> AllGood(jobs[..n]) && Good(jobs[n]) by {
        assert forall i :: 0 <= i < n ==> jobs[..n][i] == jobs[i];
      }
    }
  }

  ghost predicate IsId(j: Job, id: nat) {
    j.id == id
  }

  /** A job that was run, for real, with this return code. */
  ghost function RanWith(code: int): Job -> bool {
    (j: Job) => !j.isBreak && !j.isSkip && j.returncode == code
  }

  ghost function RanBadly(): Job -> bool {
    (j: Job) => !j.isBreak && !j.isSkip && j.returncode != 0 && j.returncode != 1 && j.returncode != 2
  }

  ghost function Skipped(): Job -> bool {
    (j: Job) => !j.isBreak && j.isSkip
  }

  lemma {:induction false} ListedSelects(jobs: seq<Job>, v: Verdict, keep: Job -> bool)
    requires forall j :: keep(j) <==> VerdictOf(j) == v
    ensures Selects(Listed(jobs, v), jobs, keep, IsId)
  {
    if jobs == [] {
      NoneSelected(keep, IsId);
    } else {
      var front, last := jobs[..|jobs| - 1], jobs[|jobs| - 1];
      ListedSelects(front, v, keep);
      OneMoreSelected(Listed(front, v), front, if VerdictOf(last) == v then [last.id] else [], last, keep, IsId);
      assert front + [last] == jobs;
    }
  }

  /** The lists the master prints: exactly the tests that were skipped, returned 1, returned 2, returned anything
      else but 0, in the order they were collected. */
  ghost predicate Reports(jobs: seq<Job>, skipped: seq<nat>, failed: seq<nat>, valgrind: seq<nat>, crashed: seq<nat>) {
    && Selects(skipped, jobs, Skipped(), IsId) && Selects(failed, jobs, RanWith(1), IsId)
    && Selects(valgrind, jobs, RanWith(2), IsId) && Selects(crashed, jobs, RanBadly(), IsId)
  }

  lemma ListsReport(jobs: seq<Job>)
    ensures Reports(jobs, Listed(jobs, Skip), Listed(jobs, Fail), Listed(jobs, Valgrind), Listed(jobs, Crash))
    ensures Selects(Listed(jobs, Pass), jobs, RanWith(0), IsId)
  {
    ListedSelects(jobs, Skip, Skipped());
    ListedSelects(jobs, Pass, RanWith(0));
    ListedSelects(jobs, Fail, RanWith(1));
    ListedSelects(jobs, Valgrind, RanWith(2));
    ListedSelects(jobs, Crash, RanBadly());
  }

  /** The collecting loop's tally. */
  method TallyJobs(collected: seq<Job>)
    returns (passed: nat, skipped: seq<nat>, failed: seq<nat>, valgrind: seq<nat>, crashed: seq<nat>)
    ensures passed == |Listed(collected, Pass)| && skipped == Listed(collected, Skip)
    ensures failed == Listed(collected, Fail) && valgrind == Listed(collected, Valgrind)
    ensures crashed == Listed(collected, Crash)
  {
    passed, skipped, failed, valgrind, crashed := 0, [], [], [], [];
    for i := 0 to |collected|
      invariant passed == |Listed(collected[..i], Pass)| && skipped == Listed(collected[..i], Skip)
      invariant failed == Listed(collected[..i], Fail) && valgrind == Listed(collected[..i], Valgrind)
      invariant crashed == Listed(collected[..i], Crash)
    {
      var job := collected[i];
      assert collected[..i + 1][..i] == collected[..i];
      if job.isBreak {
        continue;
      }
      if job.isSkip {
        skipped := skipped + [job.id];
      } else if job.returncode == 0 {
        passed := passed + 1;
      } else if job.returncode == 1 {
        failed := failed + [job.id];
      } else if job.returncode == 2 {
        valgrind := valgrind + [job.id];
      } else {
        crashed := crashed + [job.id];
      }
    }
    assert collected[..|collected|] == collected;
  }

  /** The reports and the exit code of the program: success exactly when every test was reported for real, and was
      skipped or passed. */
  method ExitCode(collected: seq<Job>, totalTests: nat)
    returns (code: int, passed: nat, skipped: seq<nat>, failed: seq<nat>, valgrind: seq<nat>, crashed: seq<nat>)
    requires totalTests == |collected|
    ensures code == 0 || code == 1
    ensures code == 0 <==> forall i :: 0 <= i < |collected| ==>
              !collected[i].isBreak && (collected[i].isSkip || collected[i].returncode == 0)
    ensures passed == |Listed(collected, Pass)| && Selects(Listed(collected, Pass), collected, RanWith(0), IsId)
    ensures Reports(collected, skipped, failed, valgrind, crashed)
  {
    passed, skipped, failed, valgrind, crashed := TallyJobs(collected);
    VerdictsPartition(collected);
    ListsReport(collected);
    code := if passed + |skipped| == totalTests then 0 else 1;
    assert AllGood(collected) <==>
           forall i :: 0 <= i < |collected| ==>
             !collected[i].isBreak && (collected[i].isSkip || collected[i].returncode == 0);
  }

  /** At the end of any run: what was collected for test `id` carries that test's own skip flag, and no test
      comes back re-marked unless there was an interrupt. */
  lemma CollectedAreGenuine(c: Config, es: seq<Event>, i: nat)
    requires Feasible(c, Start(c), es)
    requires i < |Run(c, Start(c), es).collected|
    ensures var j := Run(c, Start(c), es).collected[i];
            j.id < |c.skips| && j.isSkip == c.skips[j.id] && (j.isBreak ==> Interrupt in es)
  {
    ReachableInv(c, es);
    if Interrupt !in es {
      NeverInterrupted(c, Start(c), es);
    }
  }

  lemma {:induction false} NeverInterrupted(c: Config, s: State, es: seq<Event>)
    requires Feasible(c, s, es) && Interrupt !in es && !s.threadExit
    ensures !Run(c, s, es).threadExit
    decreases |es|
  {
    if es == [] {
    } else {
      NeverInterrupted(c, Step(c, s, es[0]), es[1..]);
    }
  }
}
