/** The concurrent test dispatcher of test.py: one master, P workers, a FIFO input queue, an output queue,
    one break job per worker, and an interrupt that may arrive at any moment. */
module Dispatcher {
  import opened Tally

  /** The fields of a Job that decide its way through the queues; `id` stands for the rest. */
  datatype Job = Job(id: nat, isBreak: bool, isSkip: bool, returncode: int)

  /** A worker waits on the input queue, holds a job it has not looked at, has a job to report, or is gone. */
  datatype Worker = Idle | Holding(job: Job) | Finished(job: Job) | Exited

  /** The work to do: test i is dispatched with is_skip == skips[i]. */
  datatype Config = Config(skips: seq<bool>, processors: nat)

  /** The master is described by how far it has come through its four loops. */
  datatype State = State(
    dispatched: nat, breaksSent: nat, collected: seq<Job>, joined: nat,
    inputQueue: seq<Job>, workers: seq<Worker>, outputQueue: seq<Job>, threadExit: bool)

  datatype Event =
    | Dispatch | SendBreak | Collect | Join          // the master
    | Get(w: nat) | Work(w: nat, returncode: int) | Put(w: nat)  // worker w
    | Interrupt                                      // the signal handler

  function NewJob(id: nat, isSkip: bool): Job {
    Job(id, false, isSkip, 0)
  }

  const BREAK_JOB := Job(0, true, false, 0)

  function Start(c: Config): State {
    State(0, 0, [], 0, [], seq(c.processors, _ => Idle), [], false)
  }

  /** What a worker makes of a job: after an interrupt it is re-marked, a skipped one is passed on. */
  function Process(job: Job, threadExit: bool, returncode: int): Job {
    if threadExit then job.(isBreak := true)
    else if job.isSkip then job
    else job.(returncode := returncode)
  }

  predicate Enabled(c: Config, s: State, e: Event) {
    match e
    case Dispatch => s.dispatched < |c.skips|
    case SendBreak => s.dispatched == |c.skips| && s.breaksSent < c.processors
    case Collect => s.dispatched == |c.skips| && s.breaksSent == c.processors
                    && |s.collected| < |c.skips| && s.outputQueue != []
    case Join => s.dispatched == |c.skips| && s.breaksSent == c.processors && |s.collected| == |c.skips|
                 && s.joined < |s.workers| && s.workers[s.joined].Exited?
    case Get(w) => w < |s.workers| && s.workers[w].Idle? && s.inputQueue != []
    case Work(w, _) => w < |s.workers| && s.workers[w].Holding?
    case Put(w) => w < |s.workers| && s.workers[w].Finished?
    case Interrupt => true
  }

  function Step(c: Config, s: State, e: Event): State
    requires Enabled(c, s, e)
  {
    match e
    case Dispatch => s.(inputQueue := s.inputQueue + [NewJob(s.dispatched, c.skips[s.dispatched])],
                        dispatched := s.dispatched + 1)
    case SendBreak => s.(inputQueue := s.inputQueue + [BREAK_JOB], breaksSent := s.breaksSent + 1)
    case Collect => s.(collected := s.collected + [s.outputQueue[0]], outputQueue := s.outputQueue[1..])
    case Join => s.(joined := s.joined + 1)
    case Get(w) =>
      var job := s.inputQueue[0];
      s.(inputQueue := s.inputQueue[1..], workers := s.workers[w := if job.isBreak then Exited else Holding(job)])
    case Work(w, returncode) =>
      s.(workers := s.workers[w := Finished(Process(s.workers[w].job, s.threadExit, returncode))])
    case Put(w) =>
      s.(outputQueue := s.outputQueue + [s.workers[w].job], workers := s.workers[w := Idle])
    case Interrupt => s.(threadExit := true)
  }

  predicate Done(c: Config, s: State) {
    s.dispatched == |c.skips| && s.breaksSent == c.processors && |s.collected| == |c.skips| && s.joined == c.processors
  }

  ghost predicate Feasible(c: Config, s: State, es: seq<Event>)
    decreases |es|
  {
    es != [] ==> Enabled(c, s, es[0]) && Feasible(c, Step(c, s, es[0]), es[1..])
  }

  ghost function Run(c: Config, s: State, es: seq<Event>): State
    requires Feasible(c, s, es)
    decreases |es|
  {
    if es == [] then s else Run(c, Step(c, s, es[0]), es[1..])
  }

  // ---------- Conservation ----------

  /** The flag of a job that is test `id`, on each of the places where a job can be. */
  ghost function Queued(id: nat): Job -> nat {
    (j: Job) => if !j.isBreak && j.id == id then 1 else 0
  }

  ghost function Held(id: nat): Worker -> nat {
    (w: Worker) => if (w.Holding? || w.Finished?) && w.job.id == id then 1 else 0
  }

  ghost function Reported(id: nat): Job -> nat {
    (j: Job) => if j.id == id then 1 else 0
  }

  /** In how many places test `id` is. */
  ghost function Copies(s: State, id: nat): nat {
    Total(s.inputQueue, Queued(id)) + Total(s.workers, Held(id))
      + Total(s.outputQueue, Reported(id)) + Total(s.collected, Reported(id))
  }

  ghost function Real(j: Job): nat { if j.isBreak then 0 else 1 }

  ghost function Busy(w: Worker): nat { if w.Holding? || w.Finished? then 1 else 0 }

  ghost function Population(s: State): nat {
    Total(s.inputQueue, Real) + Total(s.workers, Busy) + |s.outputQueue| + |s.collected|
  }

  ghost function Breaks(j: Job): nat { if j.isBreak then 1 else 0 }

  ghost function Gone(w: Worker): nat { if w.Exited? then 1 else 0 }

  /** In the FIFO the breaks follow all jobs. */
  ghost predicate BreaksLast(q: seq<Job>) {
    forall i, j :: 0 <= i < j < |q| && q[i].isBreak ==> q[j].isBreak
  }

  /** A job on its way out is the dispatched one; only an interrupt re-marks it. */
  ghost predicate Genuine(c: Config, threadExit: bool, j: Job) {
    j.id < |c.skips| && j.isSkip == c.skips[j.id] && (j.isBreak ==> threadExit)
  }

  ghost predicate AllGenuine(c: Config, s: State) {
    && (forall i :: 0 <= i < |s.inputQueue| && !s.inputQueue[i].isBreak ==> Genuine(c, s.threadExit, s.inputQueue[i]))
    && (forall i :: 0 <= i < |s.workers| && (s.workers[i].Holding? || s.workers[i].Finished?) ==>
          Genuine(c, s.threadExit, s.workers[i].job))
    && (forall i :: 0 <= i < |s.outputQueue| ==> Genuine(c, s.threadExit, s.outputQueue[i]))
    && (forall i :: 0 <= i < |s.collected| ==> Genuine(c, s.threadExit, s.collected[i]))
  }

  ghost predicate Phases(c: Config, s: State) {
    && |s.workers| == c.processors && s.joined <= c.processors
    && s.dispatched <= |c.skips| && s.breaksSent <= c.processors && |s.collected| <= |c.skips|
    && (s.breaksSent > 0 ==> s.dispatched == |c.skips|)
    && (s.joined > 0 ==> s.breaksSent == c.processors && |s.collected| == |c.skips|)
    && (forall i :: 0 <= i < s.joined ==> s.workers[i].Exited?)
  }

  /** Each dispatched test is in exactly one place, and there is nothing else. */
  ghost predicate Conserved(s: State) {
    && (forall id: nat :: Copies(s, id) == if id < s.dispatched then 1 else 0)
    && Population(s) == s.dispatched
  }

  /** Every break sent is still queued or has stopped exactly one worker, and none has while a job is queued. */
  ghost predicate BreaksAccounted(s: State) {
    && BreaksLast(s.inputQueue)
    && (s.breaksSent == 0 ==> forall i :: 0 <= i < |s.inputQueue| ==> !s.inputQueue[i].isBreak)
    && Total(s.inputQueue, Breaks) + Total(s.workers, Gone) == s.breaksSent
    && (Total(s.workers, Gone) > 0 ==> forall i :: 0 <= i < |s.inputQueue| ==> s.inputQueue[i].isBreak)
  }

  ghost predicate Inv(c: Config, s: State) {
    Phases(c, s) && Conserved(s) && BreaksAccounted(s) && AllGenuine(c, s)
  }

  lemma StartInv(c: Config)
    ensures Inv(c, Start(c))
  {
    var s := Start(c);
    TotalZero(s.workers, Gone);
    TotalZero(s.workers, Busy);
    forall id: nat ensures Copies(s, id) == 0 {
      TotalZero(s.workers, Held(id));
    }
  }

  /** No step but a dispatch changes the number of copies of a test. */
  lemma StepCopies(c: Config, s: State, e: Event, id: nat)
    requires Enabled(c, s, e)
    ensures Copies(Step(c, s, e), id) == Copies(s, id) + if e.Dispatch? && id == s.dispatched then 1 else 0
  {
    match e
    case Dispatch => TotalAppend(s.inputQueue, NewJob(s.dispatched, c.skips[s.dispatched]), Queued(id));
    case SendBreak => TotalAppend(s.inputQueue, BREAK_JOB, Queued(id));
    case Collect => TotalAppend(s.collected, s.outputQueue[0], Reported(id));
    case Get(w) => TotalUpdate(s.workers, w, Step(c, s, e).workers[w], Held(id));
    case Work(w, _) => TotalUpdate(s.workers, w, Step(c, s, e).workers[w], Held(id));
    case Put(w) =>
      TotalUpdate(s.workers, w, Idle, Held(id));
      TotalAppend(s.outputQueue, s.workers[w].job, Reported(id));
    case _ =>
  }

  lemma StepPopulation(c: Config, s: State, e: Event)
    requires Enabled(c, s, e)
    ensures Population(Step(c, s, e)) == Population(s) + if e.Dispatch? then 1 else 0
  {
    match e
    case Dispatch => TotalAppend(s.inputQueue, NewJob(s.dispatched, c.skips[s.dispatched]), Real);
    case SendBreak => TotalAppend(s.inputQueue, BREAK_JOB, Real);
    case Get(w) => TotalUpdate(s.workers, w, Step(c, s, e).workers[w], Busy);
    case Work(w, _) => TotalUpdate(s.workers, w, Step(c, s, e).workers[w], Busy);
    case Put(w) => TotalUpdate(s.workers, w, Idle, Busy);
    case _ =>
  }

  lemma StepConserves(c: Config, s: State, e: Event)
    requires Conserved(s) && Enabled(c, s, e)
    ensures Conserved(Step(c, s, e))
  {
    StepPopulation(c, s, e);
    forall id: nat ensures Copies(Step(c, s, e), id) == if id < Step(c, s, e).dispatched then 1 else 0 {
      StepCopies(c, s, e, id);
    }
  }

  lemma GetAccountsBreaks(c: Config, s: State, w: nat)
    requires BreaksAccounted(s) && Enabled(c, s, Get(w))
    ensures BreaksAccounted(Step(c, s, Get(w)))
  {
    var s' := Step(c, s, Get(w));
    TotalUpdate(s.workers, w, s'.workers[w], Gone);
    assert forall i :: 0 <= i < |s'.inputQueue| ==> s'.inputQueue[i] == s.inputQueue[i + 1];
    if s.inputQueue[0].isBreak {
      assert forall i :: 0 < i < |s.inputQueue| ==> s.inputQueue[i].isBreak;
    }
  }

  lemma PutAccountsBreaks(c: Config, s: State, e: Event)
    requires Phases(c, s) && BreaksAccounted(s) && Enabled(c, s, e) && (e.Dispatch? || e.SendBreak?)
    ensures BreaksAccounted(Step(c, s, e))
  {
    var s' := Step(c, s, e);
    TotalAppend(s.inputQueue, s'.inputQueue[|s.inputQueue|], Breaks);
  }

  lemma StepAccountsBreaks(c: Config, s: State, e: Event)
    requires Phases(c, s) && BreaksAccounted(s) && Enabled(c, s, e)
    ensures BreaksAccounted(Step(c, s, e))
  {
    match e
    case Dispatch => PutAccountsBreaks(c, s, e);
    case SendBreak => PutAccountsBreaks(c, s, e);
    case Get(w) => GetAccountsBreaks(c, s, w);
    case Work(w, _) => TotalUpdate(s.workers, w, Step(c, s, e).workers[w], Gone);
    case Put(w) => TotalUpdate(s.workers, w, Step(c, s, e).workers[w], Gone);
    case _ =>
  }

  lemma StepKeepsInv(c: Config, s: State, e: Event)
    requires Inv(c, s) && Enabled(c, s, e)
    ensures Inv(c, Step(c, s, e))
  {
    StepConserves(c, s, e);
    StepAccountsBreaks(c, s, e);
    StepKeepsPhases(c, s, e);
    StepKeepsGenuine(c, s, e);
  }

  lemma StepKeepsPhases(c: Config, s: State, e: Event)
    requires Phases(c, s) && Enabled(c, s, e)
    ensures Phases(c, Step(c, s, e))
  {
  }

  lemma StepKeepsGenuine(c: Config, s: State, e: Event)
    requires AllGenuine(c, s) && Enabled(c, s, e)
    ensures AllGenuine(c, Step(c, s, e))
  {
  }

  lemma {:induction false} RunKeepsInv(c: Config, s: State, es: seq<Event>)
    requires Inv(c, s) && Feasible(c, s, es)
    ensures Inv(c, Run(c, s, es))
    decreases |es|
  {
    if es == [] {
    } else {
      StepKeepsInv(c, s, es[0]);
      RunKeepsInv(c, Step(c, s, es[0]), es[1..]);
    }
  }
}
