/** The dispatcher on its mutable state: the queues, the workers and the global flag of test.py. Every method is
    one step between two points where another thread may take over. */
module DispatcherProgram {
  import opened Dispatcher

  class TestRun {
    const skips: seq<bool>
    const processors: nat
    var jobs: nat
    var breaksSent: nat
    var collected: seq<Job>
    var joined: nat
    var inputQueue: seq<Job>
    var workers: seq<Worker>
    var outputQueue: seq<Job>
    var threadExit: bool

    function Plan(): Config {
      Config(skips, processors)
    }

    function Now(): State
      reads this
    {
      State(jobs, breaksSent, collected, joined, inputQueue, workers, outputQueue, threadExit)
    }

    constructor (skips: seq<bool>, processors: nat)
      ensures this.skips == skips && this.processors == processors
      ensures Now() == Start(Plan())
    {
      this.skips, this.processors := skips, processors;
      jobs, breaksSent, collected, joined := 0, 0, [], 0;
      inputQueue, outputQueue, threadExit := [], [], false;
      workers := seq(processors, _ => Idle);
    }

    // ---------- The master ----------

    method DispatchTest()
      requires Enabled(Plan(), Now(), Dispatch)
      modifies this
      ensures Now() == Step(Plan(), old(Now()), Dispatch)
    {
      var job := Job(jobs, false, skips[jobs], 0);
      inputQueue := inputQueue + [job];
      jobs := jobs + 1;
    }

    method DispatchBreak()
      requires Enabled(Plan(), Now(), SendBreak)
      modifies this
      ensures Now() == Step(Plan(), old(Now()), SendBreak)
    {
      inputQueue := inputQueue + [BREAK_JOB];
      breaksSent := breaksSent + 1;
    }

    method CollectJob() returns (job: Job)
      requires Enabled(Plan(), Now(), Collect)
      modifies this
      ensures Now() == Step(Plan(), old(Now()), Collect)
      ensures old(outputQueue) == [job] + outputQueue && collected == old(collected) + [job]
    {
      job := outputQueue[0];
      outputQueue := outputQueue[1..];
      collected := collected + [job];
    }

    method JoinWorker()
      requires Enabled(Plan(), Now(), Join)
      modifies this
      ensures Now() == Step(Plan(), old(Now()), Join)
    {
      joined := joined + 1;
    }

    // ---------- A worker ----------

    /** Blocks on an empty queue; a break job ends the worker. */
    method GetJob(w: nat) returns (stop: bool)
      requires Enabled(Plan(), Now(), Get(w))
      modifies this
      ensures Now() == Step(Plan(), old(Now()), Get(w))
      ensures stop <==> workers[w].Exited?
    {
      var job := inputQueue[0];
      inputQueue := inputQueue[1..];
      stop := job.isBreak;
      if stop {
        workers := workers[w := Exited];
      } else {
        workers := workers[w := Holding(job)];
      }
    }

    /** Looks at the flag and runs the job; the operating system decides on the return code. */
    method RunJob(w: nat, returncode: int)
      requires Enabled(Plan(), Now(), Event.Work(w, returncode))
      modifies this
      ensures Now() == Step(Plan(), old(Now()), Event.Work(w, returncode))
    {
      var job := workers[w].job;
      if threadExit {
        job := job.(isBreak := true);
      } else if !job.isSkip {
        job := job.(returncode := returncode);
      }
      workers := workers[w := Finished(job)];
    }

    method PutJob(w: nat)
      requires Enabled(Plan(), Now(), Put(w))
      modifies this
      ensures Now() == Step(Plan(), old(Now()), Put(w))
    {
      outputQueue := outputQueue + [workers[w].job];
      workers := workers[w := Idle];
    }

    method SigintHook()
      modifies this
      ensures Now() == Step(Plan(), old(Now()), Interrupt)
    {
      threadExit := true;
    }
  }

  /** Interleaves master, workers and signal handler as the events say. Whatever run of the system that is, the
      queues and the workers end up as in that run. */
  method RunThreads(run: TestRun, es: seq<Event>)
    requires Feasible(run.Plan(), run.Now(), es)
    modifies run
    ensures run.Now() == Run(run.Plan(), old(run.Now()), es)
  {
    var c := run.Plan();
    ghost var s0 := run.Now();
    for i := 0 to |es|
      invariant Feasible(c, run.Now(), es[i..]) && Run(c, run.Now(), es[i..]) == Run(c, s0, es)
    {
      var e := es[i];
      assert es[i..][0] == e && es[i..][1..] == es[i + 1..];
      match e {
        case Dispatch => run.DispatchTest();
        case SendBreak => run.DispatchBreak();
        case Collect => var job := run.CollectJob();
        case Join => run.JoinWorker();
        case Get(w) => var stop := run.GetJob(w);
        case Work(w, returncode) => run.RunJob(w, returncode);
        case Put(w) => run.PutJob(w);
        case Interrupt => run.SigintHook();
      }
    }
  }
}
