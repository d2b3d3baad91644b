# Verified model of the NTN IAB simulation and its analysis scripts

The project models four parts of the repository whose behaviour is more than wiring, and proves what they are for:

* **The inter-donor IAB backhaul handover** of `scratch/ntn-iab-quic-dash.cc` (the TCP program has the same
  protocol, line for line, at `scratch/ntn-iab-tcp-dash.cc:359-497`): an event-driven protocol on global
  variables, with deferred migrations that may still be queued while the next handover runs. Around it: the
  satellite track and handover schedule, the UE tracks, the trace paths, the trace files and the rescan loop.
* **The concurrent test dispatcher** of `test.py`: one master, any number of workers, two queues, break jobs and
  an interrupt at any moment, as a labelled transition system over every interleaving.
* **The playback and trace analytics** of `scripts/plot_bitrate_playback.py` and
  `scripts/plot_bitrate_comparison_single_run.py`: the different views of one event list, the one-pass cursors,
  medians and percentiles across runs, Jain's index, truncating and padding.
* **The tail reader and the job-array ranges** of `scripts/err_check.py`.

## How it is built

| part | files |
|---|---|
| handover | `Handover` (globals, callbacks, environment), `HandoverSafety` (the invariant), `HandoverResults` (what it means), `HandoverProgram` (the callbacks on mutable globals), `HandoverSchedule` (with the satellite schedule), `Orbit` |
| UEs and traces | `UeTracks`, `TracePaths`, `TraceStreams`, `TraceHooks` |
| dispatcher | `Dispatcher`, `DispatcherResults`, `DispatcherOutcomes` (what becomes of each test), `DispatcherProgram` (the steps on mutable queues), `Tally` (sums over lists) |
| analytics | `Playback`, `PlaybackViews`, `OrderStatistics`, `Curves`, `Aggregation`, `Fairness`, `Binning`, `TruncatePad`, `Trace`, `Sorting`, `Cursors`, `Grid` |
| err_check | `TailReader`, `JobArray` |
| shared | `Selection` (lists that keep some elements of others), `Reals` (order facts about products), `Wrappers` (an option type) |

Where the source changes state step by step, the model does too: the handover globals, the dispatcher's queues,
the trace files and the hooked paths are classes, the loops are methods with invariants. Each such method is
proved equal to a function, and the theorems are about the function, or about runs of it.

`dafny verify dfyconfig.toml` checks everything.

## What is assumed of the environment

* Handover: the simulator runs events in time order, and events of one time in the order they were scheduled; the
  execution delay does not change; a handover ends (well or badly) only while one is requested, its new RNTI is
  not in use at the target; source and target of a trigger differ, as in the schedule; while no handover is
  outstanding a positive answer of `HasUeManager` means that the IAB-MT is served at that source. During a handover
  any donor may answer yes: the target gets to know the IAB-MT while it joins.
  `HandoverResults.StaleSourceStrandsDescendants` shows that the assumption cannot be dropped. The donors' `Export`, `Import` and `ReleaseIabDescendants`
  are modelled from the comments at lines 503-507 and 526-527: read by RNTI, install under the new RNTI, remove
  exactly those from the source.
* Satellites: exact reals, straight motion at constant speed between two waypoints, and rest at the last one
  (`src/mobility/model/waypoint-mobility-model.cc:114-173`).
* UE tracks: the random draws are any sequence of offsets inside the disc; the square root is any non-negative
  function whose square is the squared distance.
* Dispatcher: a queue `get` blocks on an empty queue, a `put` never blocks, workers do not raise.
* Traces: connecting a path succeeds exactly when the path leads to a source, and a source calls back with its
  own path; creating a file empties it.
* Analytics: exact reals; `np.arange(a, b, d)` has length ceil((b - a) / d); `np.percentile` interpolates
  linearly between order statistics; `sorted` is stable.

## Where code and documentation differ

* `read_tail_lines` is documented to return the last `max_lines` lines. It does for every `max_lines >= 1`. Asked
  for 0 lines it returns the lines of the last block (`TailReader.ZeroLinesReturnsLines`).
* The comments of the waypoint loop say that UEs move at `ueSpeed`. With `ueSpeed` 0 they still move, once and
  slowly (`UeTracks.LegSpeed`, `UeTracks.ZeroSpeedOneLeg`).
* `truncate_and_pad_data` is documented to pad up to `max_time`. Without a sample to keep, its grid stops short
  of `max_time` unless that is a whole number of bins (`TruncatePad.EmptyInputGrid`).
* `_array_id_to_algo_run` gives two jobs the same run directory when the ids behind the last bound reuse the last
  name (`JobArray.LookupInjective`, `JobArray.RunsCollide`).
* The comments of the schedule call each handover the moment when two donors are at the same elevation. The donors
  stop at their last waypoint, at the end of the video, and the simulation runs on for 2 s: a handover in that time
  leads to a donor that is never a nearest one (`Orbit.EverNearest`, `Orbit.LastHandoverTooLate`).
* The comments of the rescan loop promise every source exactly one hook. A socket numbered 64 or more never gets
  one (`TraceHooks.HighSocketsMissed`), nor does a source that only appears after the last of the 61 rescans, or
  is gone whenever one runs (`TraceHooks.HookedExactly` gives the exact condition).
* `HandoverEndError` clears the flag "so a subsequent handover can still be triggered". Under the schedule none
  is: every later trigger names a source that does not serve the IAB-MT (`HandoverSchedule.FailureIsFinal`). Nor
  does it tune the backhaul back to the donor that goes on serving (`HandoverResults.TunedAtRest`).
* The per-algorithm totals of `err_check.py` add up only if every bound has a name
  (`JobArray.SummaryAddsUp`).
* The dispatcher hangs without workers when there is a test to run (`DispatcherResults.DeadlockFreeIff`).

## Model

| member | source | states |
|---|---|---|
| `HandoverResults.NoContextLost` | scratch/ntn-iab-quic-dash.cc:508-607 | In every state of every run, with any mix of successes and failures and any constant delay: the queued migrations form a chain that ends at the IAB's serving donor and RNTI, every descendant is registered at the chain's start and nowhere else, and nobody else's relay state has changed |
| `HandoverResults.DrainReachesServing` | scratch/ntn-iab-quic-dash.cc:541-552 | From any reachable state the queued migrations can run, and bring every descendant to the serving donor under the current RNTI |
| `HandoverResults.OutageBounded` | scratch/ntn-iab-quic-dash.cc:538-547 | More than one execution delay after the last successful handover no migration is pending: the modelled interruption is bounded |
| `HandoverResults.CapturedTupleHolds` | scratch/ntn-iab-quic-dash.cc:470-501 | While a handover is outstanding the globals hold the tuple its own trigger stored; from HandoverStart on the backhaul is tuned to that target exactly when no later donor has the same cell id |
| `HandoverResults.DeferredMigrationKeepsItsTuple` | scratch/ntn-iab-quic-dash.cc:541-552 | In every later state of every run a deferred migration is still queued with the values bound at EndOk, or it has run exactly once, when it was due, and that step applied exactly those values |
| `HandoverResults.StaleSourceStrandsDescendants` | scratch/ntn-iab-quic-dash.cc:585-599 | With a positive HasUeManager at an arbitrary source, a handover from rest, immediate or deferred, takes the descendants along if and only if that source was serving |
| `HandoverResults.TunedAtRest` | scratch/ntn-iab-quic-dash.cc:559-566 | With distinct cell ids, the backhaul at rest is tuned to the serving donor if and only if the last handover that reached HandoverStart succeeded: a failure does not retune |
| `HandoverSafety.RunKeepsInv` | scratch/ntn-iab-quic-dash.cc:508-607 | The invariant (ordered queue, chain, captured tuple, placement, clear path ahead) survives every run |
| `HandoverSafety.StepKeepsInv` | scratch/ntn-iab-quic-dash.cc:508-607 | Every single event keeps it: trigger, start, end ok, end error, fired migration |
| `HandoverSafety.FireKeepsInv` | scratch/ntn-iab-quic-dash.cc:545-546 | A deferred migration that comes due is the first of the chain, moves the descendants from its origin to its destination and keeps the invariant |
| `HandoverSafety.EndOkDeferred` | scratch/ntn-iab-quic-dash.cc:541-547 | A deferred EndOk appends exactly one link, from the old serving address to the new one, due exactly one execution delay later, and keeps the invariant |
| `HandoverSafety.EndOkImmediate` | scratch/ntn-iab-quic-dash.cc:548-552 | An immediate EndOk finds the descendants at the old serving address, leaves them at the new one and keeps the invariant |
| `HandoverSafety.EndOkMigration` | scratch/ntn-iab-quic-dash.cc:541-550 | The migration built from the captured tuple leads from the address that has been serving to the one that serves now, where nobody else is registered |
| `HandoverSafety.FiresInOrder` | scratch/ntn-iab-quic-dash.cc:545-546 | With a constant delay the earliest scheduled migration is the first one queued, and only that one |
| `HandoverSafety.MigrateEffect` | scratch/ntn-iab-quic-dash.cc:509-529 | What a migration leaves at each address |
| `HandoverSafety.MigrateAnywhere` | scratch/ntn-iab-quic-dash.cc:509-529 | What any migration does to any address, equal donors included; with a donor missing, nothing |
| `HandoverSafety.MigrateMoves` | scratch/ntn-iab-quic-dash.cc:509-529 | A migration from where the descendants are to a clear address moves all of them and disturbs nobody |
| `HandoverSafety.MigrateConserves` | scratch/ntn-iab-quic-dash.cc:524-528 | Import before release keeps the set of registered contexts if and only if source and target donor differ or there is nothing to move |
| `HandoverSchedule.OverlapAbortUnreachable` | scratch/ntn-iab-quic-dash.cc:587-592 | If every handover of the schedule is over in less than hoTime, by success or failure, no run reaches the overlap abort, even if the joining target already knows the IAB |
| `HandoverSchedule.AbortExactly` | scratch/ntn-iab-quic-dash.cc:585-592 | Any run, on schedule or not, aborts if and only if some trigger finds a handover outstanding and a UE manager at its source |
| `HandoverSchedule.OverlapIsLate` | scratch/ntn-iab-quic-dash.cc:587-592 | On schedule, such a trigger comes hoTime or more after the trigger of the handover it finds |
| `HandoverSchedule.LateHandoverAborts` | scratch/ntn-iab-quic-dash.cc:587-592 | Promptness is needed: for every hoTime a run of the schedule, without any fault, in which a slow handover leads to the abort |
| `HandoverSchedule.ServedByNearestDonor` | scratch/ntn-iab-quic-dash.cc:1142-1156 | In every prompt run of the schedule, failures included: at rest the serving donor is a nearest one if and only if the handover to it came while the donors still moved, and nothing has failed so far or they have not moved beyond the handover away from it |
| `HandoverSchedule.NearestExactly` | scratch/ntn-iab-quic-dash.cc:1142-1156 | In every run of the schedule, at every time: the serving donor is a nearest one if and only if the handover to it came while the donors still moved and they have not moved beyond the handover away from it |
| `HandoverSchedule.FailureIsFinal` | scratch/ntn-iab-quic-dash.cc:559-566 | After a failed handover every run of the schedule stays at the donor it failed to leave, which is a nearest one, if it ever was, exactly until the donors have moved beyond the time of that handover |
| `HandoverSchedule.NoRecovery` | scratch/ntn-iab-quic-dash.cc:1149-1156 | Once the schedule has passed the serving donor by, no handover is ever requested again |
| `HandoverSchedule.RunStaysOnTrack` | scratch/ntn-iab-quic-dash.cc:1149-1156 | In every run of the schedule an outstanding handover leads from the serving donor to the next one, and serving never gets ahead of the schedule |
| `HandoverSchedule.RunStaysInStep` | scratch/ntn-iab-quic-dash.cc:1149-1156 | In every prompt run of the schedule the serving donor is the schedule's own until the first fault, and from then on behind it with nothing outstanding |
| `HandoverProgram.IabHandover.RegisterDonors` | scratch/ntn-iab-quic-dash.cc:1120-1128 | The loop builds the table in which the last donor with a cell id wins |
| `HandoverProgram.IabHandover.HandoverStart` | scratch/ntn-iab-quic-dash.cc:470-501 | Changes the globals as the callback function says: retunes only for a known cell |
| `HandoverProgram.IabHandover.MigrateIabDescendants` | scratch/ntn-iab-quic-dash.cc:509-529 | Moves the contexts between two known donors, does nothing with a null donor |
| `HandoverProgram.IabHandover.HandoverEndOk` | scratch/ntn-iab-quic-dash.cc:532-553 | Migrates or schedules the captured tuple, and clears the flag in both cases |
| `HandoverProgram.IabHandover.HandoverEndError` | scratch/ntn-iab-quic-dash.cc:559-566 | Clears the flag and nothing else |
| `HandoverProgram.IabHandover.TriggerIabBackhaulHandover` | scratch/ntn-iab-quic-dash.cc:569-607 | Captures the tuple, or aborts on overlap without touching it, or does nothing without a UE manager |
| `HandoverProgram.IabHandover.RunScheduled` | scratch/ntn-iab-quic-dash.cc:545-546 | Runs one scheduled migration with its bound arguments and takes it off the queue |
| `HandoverProgram.RunCallbacks` | scratch/ntn-iab-quic-dash.cc:469-607 | Calling the callbacks on the mutable globals in the order of any feasible event list leaves the globals of that run, which the run theorems are about |
| `Handover.DonorByCell` | scratch/ntn-iab-quic-dash.cc:1120-1128 | Every cell id in use is in the table, with a donor that has it and no later one that does |
| `Orbit.ScheduledIsNearest` | scratch/ntn-iab-quic-dash.cc:936-948 | At every time a donor is a nearest one to the central IAB if and only if the donors have moved for a time between the handover to it and the handover away from it; from the last waypoint on they stand still |
| `Orbit.NearestIsScheduled` | scratch/ntn-iab-quic-dash.cc:1149-1156 | A nearest donor is one that is scheduled at the time the donors have moved for |
| `Orbit.TieAtHandover` | scratch/ntn-iab-quic-dash.cc:1142-1156 | Adjacent donors are equally close exactly when the donors have moved for (k - 0.5) * hoTime: at that time of the simulation, from the end on if it is the end, and never if it is later |
| `Orbit.EverNearest` | scratch/ntn-iab-quic-dash.cc:936-948 | A donor is a nearest one at some time of the simulation if and only if the handover to it is not scheduled after the last waypoint |
| `Orbit.LastHandoverTooLate` | scratch/ntn-iab-quic-dash.cc:1149-1156 | With 60 s, a handover every 24.5 s and four donors: handover 3 comes at 61.25 s, before the simulation ends, to a donor that is never a nearest one |
| `Orbit.DistanceGap` | scratch/ntn-iab-quic-dash.cc:936-948 | The gap between the squared distances of two donors in closed form, at every time, from the two waypoints alone |
| `Orbit.OffsetFromZenith` | scratch/ntn-iab-quic-dash.cc:930-948 | A donor's offset from the zenith is its velocity times the time moved since i * hoTime, and stays what it is at the last waypoint |
| `Orbit.TrackOf` | scratch/ntn-iab-quic-dash.cc:936-948 | Where each donor is at every time, with and without handovers: one spacing behind the other on the track of the first, at constant height |
| `UeTracks.GenerateTrack` | scratch/ntn-iab-quic-dash.cc:1011-1031 | The waypoint loop: each waypoint is the point of the scene nearest to where the draw leads from the centre, each leg takes its leg time, the last time is the first one not before the end; it terminates |
| `UeTracks.TargetIsNearest` | scratch/ntn-iab-quic-dash.cc:1022-1024 | A UE heads for the point of the scene nearest to centre plus draw, which is centre plus draw itself where that lies in the scene |
| `UeTracks.LegAtFullSpeed` | scratch/ntn-iab-quic-dash.cc:1025-1027 | A leg is walked at exactly the configured speed unless it is shorter than a millisecond; at speed 0 it takes the whole simulation |
| `UeTracks.WalksStraight` | scratch/ntn-iab-quic-dash.cc:1018-1030 | Between two waypoints a UE is where a steady straight walk has taken it |
| `UeTracks.RestsAtEnd` | scratch/ntn-iab-quic-dash.cc:1018-1030 | From the last waypoint on it rests |
| `UeTracks.TrackTimes` | scratch/ntn-iab-quic-dash.cc:1019-1031 | Times strictly increase, at most ceil(stopTime / 0.001) legs, the last time reaches the end |
| `UeTracks.StaysInside` | scratch/ntn-iab-quic-dash.cc:1012-1030 | At every time, on the legs too, the UE is in the scene and within the radius of its cluster centre |
| `UeTracks.EveryUeStaysInside` | scratch/ntn-iab-quic-dash.cc:1002-1033 | Every placed UE is, at every time, in the scene and in the disc of the cluster it was placed in |
| `UeTracks.ClampCloser` | scratch/ntn-iab-quic-dash.cc:1014-1015 | Clamping into a range that contains the centre never takes a coordinate further from it |
| `UeTracks.MovesAtMost` | scratch/ntn-iab-quic-dash.cc:1025-1030 | Between any two times, across any number of legs, a UE gets no further than its speed times the time |
| `UeTracks.LegSpeed` | scratch/ntn-iab-quic-dash.cc:1025-1027 | A leg keeps the speed limit if and only if the speed is positive or the leg does not move |
| `UeTracks.ZeroSpeedOneLeg` | scratch/ntn-iab-quic-dash.cc:1026-1028 | At speed 0 there is exactly one leg, over the whole simulation |
| `UeTracks.PlaceUes` | scratch/ntn-iab-quic-dash.cc:1002-1033 | Every UE gets exactly one track, each cluster a contiguous block of UEs, the draws are used in order without gaps; the index guard never cuts a cluster short |
| `UeTracks.SharesAddUp` | scratch/ntn-iab-quic-dash.cc:981-984 | The per-cluster counts add up to all UEs |
| `UeTracks.SharesEven` | scratch/ntn-iab-quic-dash.cc:981-1006 | No cluster gets more than one UE more than another, and the first ones get the extra ones |
| `UeTracks.ClusterCenters` | scratch/ntn-iab-quic-dash.cc:968-979 | There is always a centre, and every centre is inside the scene |
| `UeTracks.CentersAre` | scratch/ntn-iab-quic-dash.cc:868-889 | The coordinates of the centres |
| `TracePaths.ParsePrinted` | scratch/ntn-iab-quic-dash.cc:308-319 | Reading node and socket out of a printed path gives both back, for all 32-bit numbers, any metric and both protocols |
| `TracePaths.ParsePrintedAny` | scratch/ntn-iab-quic-dash.cc:308-319 | For numbers of any size: the last 32 bits are read, and a number too long for std::stoul makes it throw |
| `TracePaths.NothingToRead` | scratch/ntn-iab-quic-dash.cc:310-311 | Without a node or a socket in the context, 0 is read |
| `TracePaths.PathExamples` | scratch/ntn-iab-quic-dash.cc:363-369 | What the paths of both programs look like |
| `TracePaths.PathInjective` | scratch/ntn-iab-quic-dash.cc:363-379 | Different (node, socket, metric) have different paths |
| `TracePaths.SearchIsLeftmost` | scratch/ntn-iab-quic-dash.cc:313-318 | The search answers with the leftmost occurrence of the pattern, and fails only where there is none |
| `TracePaths.MatchIsOccurrence` | scratch/ntn-iab-quic-dash.cc:313-318 | Matching at a position is an occurrence of the pattern there, and the group is unique |
| `TracePaths.ValueOfDecimal` | scratch/ntn-iab-quic-dash.cc:316-318 | Reading the decimal digits of a number gives the number |
| `TraceStreams.FilesHoldOwnLines` | scratch/ntn-iab-quic-dash.cc:204-225 | After any run of callbacks on any mix of metrics and connections, each metric of a connection has a file exactly when it traced something, and the file holds exactly its own lines in order |
| `TraceStreams.KeyInjective` | scratch/ntn-iab-quic-dash.cc:209 | The composite key tells all (node, 32-bit connection) pairs apart |
| `TraceStreams.FileNameInjective` | scratch/ntn-iab-quic-dash.cc:216-221 | So does the file name, for server and client nodes, and it tells the metrics apart |
| `TraceStreams.FileNameExamples` | scratch/ntn-iab-quic-dash.cc:216-221 | What the file names of server and clients look like |
| `TraceStreams.TraceLog.GetOrCreateTraceStream` | scratch/ntn-iab-quic-dash.cc:204-225 | Returns the stream registered for metric and key, creating and registering it only the first time |
| `TraceStreams.TraceLog.TraceWithContext` | scratch/ntn-iab-quic-dash.cc:321-348 | One callback of a metric: appends a line to the file of the connection in its context, or fails without a change |
| `TraceHooks.RescansHook` | scratch/ntn-iab-quic-dash.cc:350-396 | Exactly 61 rescans run; what they hook is exactly what one of them found, and no source is hooked twice |
| `TraceHooks.HookedExactly` | scratch/ntn-iab-quic-dash.cc:350-396 | A source is hooked, and by exactly one call, if and only if its socket is numbered below 64 and one of the 61 rescans finds it there on a node it goes through |
| `TraceHooks.LastRescanCatchesAll` | scratch/ntn-iab-quic-dash.cc:359-396 | Every source of a socket below 64 that exists at the last rescan is hooked by exactly one call |
| `TraceHooks.HighSocketsMissed` | scratch/ntn-iab-quic-dash.cc:361-366 | No source of a socket numbered 64 or more is ever hooked |
| `TraceHooks.HookAllHooks` | scratch/ntn-iab-quic-dash.cc:370-383 | One rescan adds exactly the listed paths that have a source, and connects none twice |
| `TraceHooks.SourceListed` | scratch/ntn-iab-quic-dash.cc:363-383 | The loops go through every source below the limits |
| `TraceHooks.ListedIsSource` | scratch/ntn-iab-quic-dash.cc:363-383 | and through nothing else |
| `TraceHooks.MetricsHooked` | scratch/ntn-iab-quic-dash.cc:370-383 | Congestion window and RTT are hooked by both programs, Rx by the QUIC program only |
| `TraceHooks.HookTable.ConnectLayerTracesWithRetry` | scratch/ntn-iab-quic-dash.cc:351-396 | The nested loops and the rescheduling, as one pass over the list of paths |
| `TraceHooks.RunRescans` | scratch/ntn-iab-quic-dash.cc:351-396 | The rescans on the mutable table, each scheduled by the one before, leave the table and the count of the run that the lemmas are about |
| `DispatcherResults.EachJobInOnePlace` | test.py:929-997 | Over every interleaving each dispatched test is in exactly one of input queue, a worker's hands, output queue and collected list, and no worker leaves while a real job is queued |
| `DispatcherResults.EveryRunTerminates` | test.py:1626-1651 | Every run has at most 5 steps a test and 3 a worker besides interrupts; one that cannot move is complete: all workers gone, every test collected exactly once, exactly that many steps |
| `DispatcherOutcomes.CollectedAsHandled` | test.py:938-983 | Over every interleaving, each test is handled at most once, and a collected job is re-marked if and only if its handling came after an interrupt; otherwise, unless skipped, it has the return code of that handling |
| `DispatcherOutcomes.RunSucceeds` | test.py:1646-1676 | In a complete run all jobs come back for real, skipped or with return code 0, if and only if every test was handled before any interrupt and was skipped or returned 0 |
| `DispatcherOutcomes.RunTests` | test.py:1873-1876 | The whole program on the mutable state: its exit code is 0 exactly in that case |
| `DispatcherOutcomes.EveryTestHandled` | test.py:1646-1651 | In a complete run every test has been handled |
| `DispatcherOutcomes.TakenInOrder` | test.py:929-936 | Over every interleaving the tests are taken in the order in which they were dispatched |
| `DispatcherOutcomes.CollectedInOrder` | test.py:1646-1647 | and the jobs are collected in the order in which they were reported |
| `DispatcherResults.DeadlockFreeIff` | test.py:1646-1651 | No interleaving gets stuck if and only if there is a worker or nothing to do |
| `DispatcherResults.NoDeadlock` | test.py:929-997 | Every state that satisfies the invariant and is not final can move |
| `DispatcherResults.StepCountsDown` | test.py:929-997 | A measure over queues, held jobs and live workers goes down by exactly one at each step but an interrupt |
| `DispatcherResults.DoneIsClean` | test.py:1794-1795 | When all joins have returned nothing is queued or held and every worker has left |
| `DispatcherResults.CollectedAreGenuine` | test.py:938-959 | What is collected is the test that was dispatched, and comes back re-marked only after an interrupt |
| `DispatcherResults.ExitCode` | test.py:1646-1676 | The lists hold exactly the tests that were skipped, returned 1, returned 2, returned anything else but 0, in the order they were collected; the program succeeds exactly when every job came back for real, skipped or with return code 0 |
| `DispatcherResults.VerdictsPartition` | test.py:1873-1876 | The verdicts split the collected jobs; passed and skipped add up to all of them exactly when no job failed or was re-marked |
| `DispatcherResults.IdleWorkerFindsWork` | test.py:1625-1628 | Once all breaks are sent an idle worker always finds something to get |
| `Dispatcher.RunKeepsInv` | test.py:929-997 | Conservation, the order of breaks behind jobs and the master's phases survive every run |
| `Dispatcher.StepAccountsBreaks` | test.py:1625-1628 | Every break sent is still queued or has stopped exactly one worker; re-marked jobs never stop one |
| `Dispatcher.StepCopies` | test.py:929-997 | Every step moves a job from one place to another, never copies or drops it |
| `DispatcherProgram.TestRun.DispatchTest` | test.py:1385-1416 | The master's step on the mutable queues is the transition of the system, with a fresh job behind all others |
| `DispatcherProgram.TestRun.DispatchBreak` | test.py:1625-1628 | Likewise for a break job |
| `DispatcherProgram.TestRun.CollectJob` | test.py:1646-1647 | Moves the oldest reported job to the collected ones |
| `DispatcherProgram.TestRun.JoinWorker` | test.py:1794-1795 | Joins the next worker once that has left |
| `DispatcherProgram.TestRun.GetJob` | test.py:929-936 | A worker takes the oldest job, and leaves exactly on a break |
| `DispatcherProgram.TestRun.RunJob` | test.py:942-968 | Re-marks the job after an interrupt, passes a skipped one on, or stores the return code, as the transition does whose outcome `DispatcherOutcomes.CollectedAsHandled` states |
| `DispatcherProgram.TestRun.PutJob` | test.py:943-990 | Reports the job and goes back to waiting |
| `DispatcherProgram.TestRun.SigintHook` | test.py:555-558 | Sets the flag and nothing else |
| `DispatcherProgram.RunThreads` | test.py:923-997 | Any interleaving of the steps on the mutable queues and workers leaves the state of that run of the transition system |
| `PlaybackViews.StateMatchesPeriods` | scripts/plot_bitrate_playback.py:966-1024 | Before the final time the state is 0 exactly before the first event and inside the half-open interruption periods that the statistics report |
| `PlaybackViews.LatestEventDecides` | scripts/plot_bitrate_playback.py:1413-1433 | In terms of the unsorted list: the latest event up to t decides, and of several at that time the one logged last |
| `PlaybackViews.PlaybackStateOverTime` | scripts/plot_bitrate_playback.py:1136-1164 | The cursor sweep gives at every bin centre the answer of the last event up to it |
| `PlaybackViews.UserStateAtTime` | scripts/plot_bitrate_playback.py:1413-1433 | So does the point query, by its own scan |
| `PlaybackViews.TimelineMatchesStats` | scripts/plot_bitrate_comparison_single_run.py:138-244 | The timeline filtered by status equals the two period lists built independently, for every event list |
| `PlaybackViews.CreatePlaybackTimeline` | scripts/plot_bitrate_comparison_single_run.py:197-244 | The loop produces the spans of the timeline |
| `PlaybackViews.SpansResolved` | scripts/plot_bitrate_comparison_single_run.py:206-243 | Every span has the resolution of the last `playing` event before the one that ends it |
| `PlaybackViews.PeriodsTakeTurns` | scripts/plot_bitrate_comparison_single_run.py:197-244 | The periods are ordered, do not overlap, lie between first event and end, and strictly alternate |
| `PlaybackViews.PlaybackMetrics` | scripts/plot_bitrate_playback.py:419-446 | The totals of the statistics, which reach to the later of last event and end time, the number of interruptions, and a ratio in [0, 1] that is the interrupted share of the accounted time, for all but an empty log with an end time |
| `Playback.CalculatePlaybackStats` | scripts/plot_bitrate_playback.py:966-1024 | The loop on its variables produces the totals and the two period lists of the specification; played, interrupted and discarded time reach exactly from the first event to the later of last event and end time |
| `Playback.PlaybackAccounting` | scripts/plot_bitrate_playback.py:966-1024 | Played, interrupted and discarded time add up to the whole span; the totals are the lengths of the periods; no more interruption periods than stalls |
| `Playback.TotalsReachEnd` | scripts/plot_bitrate_playback.py:1006-1024 | First event plus played, interrupted and discarded time is the last event time or the end time, and not before either |
| `Playback.StallsAreInterruptions` | scripts/plot_bitrate_playback.py:436 | The stall count is the number of `interrupted` events |
| `Playback.StallsOfSorted` | scripts/plot_bitrate_playback.py:419-446 | Counting the stalls in the unsorted list counts them in the sorted one |
| `OrderStatistics.SortPointwise` | scripts/plot_bitrate_playback.py:1406-1409 | Lists ordered element by element stay so after sorting |
| `OrderStatistics.RankByCount` | scripts/plot_bitrate_playback.py:1386-1388 | The k-th smallest value is at most v exactly when more than k values are |
| `OrderStatistics.MedianPointwise` | scripts/plot_bitrate_playback.py:1407-1409 | The median keeps a pointwise order |
| `OrderStatistics.MedianIsPercentile` | scripts/plot_bitrate_playback.py:1386-1409 | The median is the 50th percentile |
| `OrderStatistics.PercentileMonotone` | scripts/plot_bitrate_playback.py:1386-1388 | A higher percentile of the same values is never smaller |
| `OrderStatistics.PercentileInterpolates` | scripts/plot_bitrate_playback.py:1386-1388 | At position k + f between order statistics the percentile is that far between the two, and at an order statistic it is that one |
| `OrderStatistics.PercentilePointwise` | scripts/plot_bitrate_playback.py:1386-1388 | Neither is a percentile of pointwise larger values |
| `OrderStatistics.PercentileInBounds` | scripts/plot_bitrate_playback.py:1386-1388 | Percentiles stay within the bounds of the values |
| `Curves.AggregatedPercentilesOrdered` | scripts/plot_bitrate_playback.py:1386-1409 | At any time the medians over the runs are ordered as the percentiles are |
| `Aggregation.AggregateBitratePercentiles` | scripts/plot_bitrate_playback.py:1328-1411 | Goes by exactly the runs with a sample and in each by exactly the nodes with a sample, with their samples in time order; the three returned lists have one value a bin, the median over these runs of the percentile across their nodes, and p25 <= p50 <= p75 in every bin |
| `Aggregation.KeptByPosition` | scripts/plot_bitrate_playback.py:1359-1368 | The runs aggregated, as an increasing list of exactly the positions of the runs with a sample |
| `Aggregation.SeriesByPosition` | scripts/plot_bitrate_playback.py:1361-1365 | The nodes of a run aggregated, as an increasing list of exactly the positions of the nodes with a sample |
| `Aggregation.RangeSpansAll` | scripts/plot_bitrate_playback.py:1337-1344 | The range goes exactly from the earliest first sample to the latest last one |
| `Aggregation.EndOfBin` | scripts/plot_bitrate_playback.py:1352-1378 | Each value is taken at the end of its bin, half a bin behind the centre |
| `Aggregation.TimeRange` | scripts/plot_bitrate_playback.py:1337-1344 | The nested loops find the earliest first and the latest last sample time, or none |
| `Aggregation.RangeOfKept` | scripts/plot_bitrate_playback.py:1346-1365 | There is a time range if and only if some run is kept |
| `Aggregation.ColumnsAreAggregate` | scripts/plot_bitrate_playback.py:1400-1409 | The median of each column of the per-run lists is the median over the runs at that bin's end |
| `Curves.RunPercentiles` | scripts/plot_bitrate_playback.py:1359-1398 | The loops with one cursor a node give in every bin the percentile of what each node's last sample up to the bin's end says |
| `Curves.PercentileOfShown` | scripts/plot_bitrate_playback.py:1371-1388 | What a node shows is its latest sample up to the time, or zero where there is none; the percentile is that of the values shown |
| `Curves.MedianKeepsOrder` | scripts/plot_bitrate_playback.py:1407-1409 | Curves ordered in every run have ordered medians |
| `Curves.CdfValues` | scripts/plot_bitrate_playback.py:3210-3220 | The one-pass CDF is at each grid point the share of values up to the largest grid point so far |
| `Curves.CdfOnSortedGrid` | scripts/plot_bitrate_playback.py:3210-3220 | On a nondecreasing grid that is count(v <= x) / n |
| `Curves.CursorCounts` | scripts/plot_bitrate_playback.py:3216-3219 | The cursor of a sorted list has counted the values up to x |
| `Curves.MedianCdfIsMonotone` | scripts/plot_bitrate_playback.py:3280-3289 | At any two points the medians of the runs' distribution functions are ordered and within [0, 1] |
| `Aggregation.MedianCdf` | scripts/plot_bitrate_playback.py:3262-3289 | The plotted median CDF is that of exactly the runs with values, has one value a grid point, never falls and stays within [0, 1]; None exactly when no run is left |
| `Aggregation.RunCdfs` | scripts/plot_bitrate_playback.py:3280-3286 | The loop over the runs gives one row for each run that has a value: its share of values up to the largest grid point so far |
| `Fairness.JainAtMostOne` | scripts/plot_bitrate_playback.py:3696-3698 | For any values, negative ones too, the index is at most 1, and 1 exactly when all are equal |
| `Fairness.JainAtLeastShare` | scripts/plot_bitrate_playback.py:2821-2841 | For values not negative it is at least 1/n, and 1/n exactly when one user has everything |
| `Fairness.JainScaleFree` | scripts/plot_bitrate_playback.py:2837-2841 | Scaling all values changes nothing |
| `Fairness.JainIsQuotient` | scripts/plot_bitrate_playback.py:2837-2841 | Index times n times the square sum is the square of the sum |
| `Fairness.JainFairnessIndex` | scripts/plot_bitrate_playback.py:2821-2841 | The loop keeps exactly the finite numbers that are not negative, in order; the result is their index, in [1/n, 1], or None exactly when nothing but zeros is left |
| `Fairness.CleanedSelects` | scripts/plot_bitrate_playback.py:2826-2834 | Cleaning keeps exactly the usable cells, in order |
| `Binning.DataRateKbps` | scripts/plot_bitrate_playback.py:1091-1112 | The single pass gives every bin the naive sum of the samples in [b_i, b_i+1), empty bins left out |
| `Binning.RatesOfBins` | scripts/plot_bitrate_playback.py:1099-1112 | The series has exactly one point for each non-empty bin, in order: its centre, and the rate that carries the bytes of the bin |
| `Binning.OnlyLastInstantDropped` | scripts/plot_bitrate_playback.py:1091-1112 | The bins together lose exactly the samples at the maximum time, if the span is a whole number of intervals, and nothing otherwise |
| `Binning.BinsHoldAllBeforeLastEdge` | scripts/plot_bitrate_playback.py:1098-1110 | The bytes of all bins are the bytes strictly before the last edge |
| `Binning.LastEdge` | scripts/plot_bitrate_playback.py:1098-1100 | The last edge is at the maximum time exactly when the span is a whole number of intervals, beyond it otherwise |
| `Binning.ValueOverTime` | scripts/plot_bitrate_playback.py:1114-1134 | The hold-last cursor shows in every bin the value of the last sample before the bin's end |
| `Binning.HeldIsLast` | scripts/plot_bitrate_playback.py:1122-1134 | The value held at a time is that of the last sample strictly before it |
| `TruncatePad.TruncateAndPadFits` | scripts/plot_bitrate_playback.py:1595-1654 | For increasing times with a sample to keep: strictly increasing from 0 to max_time, exactly the samples up to max_time unchanged and contiguous, fill values around them, no padding gap above the bin |
| `TruncatePad.PaddingOnGrid` | scripts/plot_bitrate_playback.py:1626-1651 | Every point of the result is a kept sample, or has the fill value and lies on a whole number of bins or at max_time |
| `TruncatePad.ListsFit` | scripts/plot_bitrate_playback.py:1609-1654 | The same for the two lists as given: point i of the kept ones is (times[i], values[i]), up to the end of the shorter list |
| `TruncatePad.TruncateAndPadIdempotent` | scripts/plot_bitrate_playback.py:1595-1654 | Doing it twice changes nothing more |
| `TruncatePad.FixedPoints` | scripts/plot_bitrate_playback.py:1614-1654 | A curve from 0 within max_time is left alone if and only if it ends at max_time |
| `TruncatePad.EmptyInputGrid` | scripts/plot_bitrate_playback.py:1619-1624 | Without a sample to keep, the result ends at max_time, and is left alone by a second application, if and only if max_time is a whole number of bins |
| `TruncatePad.TruncateAndPadData` | scripts/plot_bitrate_playback.py:1576-1654 | The steps on the list are the function the lemmas are about, for absent and mismatched lists too |
| `TailReader.ReadTailLines` | scripts/err_check.py:9-33 | For every file, block size and max_lines >= 1: as many lines as asked for or all there are, and each the line at its place counted from the end of splitting the whole file; stops at the file's start or with one spare line, and reads no block it could do without |
| `TailReader.SuffixSplit` | scripts/err_check.py:23-30 | Cutting a file anywhere, inside a line or between CR and LF, damages at most the first line behind the cut |
| `TailReader.SplitOfUnlines` | scripts/err_check.py:30 | For lines ended by LF, CR or CR LF in any mix, the last one possibly unterminated: splitting undoes writing if and only if no CR-ended line comes before an empty LF-ended one and the unterminated last line is not empty |
| `TailReader.SplitWritten` | scripts/err_check.py:30 | What splitting makes of any such file: the lines written, less the empty lines that merge into a CR LF |
| `TailReader.ZeroLinesReturnsLines` | scripts/err_check.py:32-33 | Asked for zero lines, it returns some for every file but the empty one |
| `JobArray.ParseSlurmAlgos` | scripts/err_check.py:43-72 | The range-building loop, with its skipped branches and final range |
| `JobArray.BranchesSelected` | scripts/err_check.py:60-67 | For any bounds, increasing or not: exactly the branches with a name and an id give a range, in order |
| `JobArray.RangesAre` | scripts/err_check.py:68-72 | Behind them the ids after the last bound, if there are any, go to the last name; no range is empty |
| `JobArray.RangesPartition` | scripts/err_check.py:60-72 | For increasing bounds the ranges partition 1..max_id if and only if every bound has a name |
| `JobArray.LookupInjective` | scripts/err_check.py:169-174 | With distinct names, every id has its own (algorithm, run) if and only if there are more names than bounds or no id lies behind the last bound |
| `JobArray.RunsCollide` | scripts/err_check.py:68-71 | A concrete script in which ids 1 and 31 are the same run |
| `JobArray.ArrayIdToAlgoRun` | scripts/err_check.py:169-174 | The search loop is the lookup |
| `JobArray.LookupFinds` | scripts/err_check.py:169-174 | It answers with the first range that holds the id, and with nothing exactly when none does |
| `JobArray.LookupOf` | scripts/err_check.py:169-174 | For increasing bounds, each id has the name of the branch of its bound and its number within it, or no run where that branch has no name |
| `JobArray.RunSummary` | scripts/err_check.py:94-107 | Each row has the name of its range, its number of existing ids as total, of corrupted ids as count, and the difference as remaining |
| `JobArray.SummaryAddsUp` | scripts/err_check.py:94-107 | The totals of all algorithms add up to the existing ids of the array, whichever those are, if and only if every bound has a name |
| `JobArray.RemainingCounts` | scripts/err_check.py:94-107 | With corrupted ids among the existing ones, `remaining` counts the healthy ids, so it is never negative |

## Left out

- ns-3 itself (mmWave, RRC, EPC, QUIC and TCP sockets, DASH clients and their rate adaptation): its source is not part of this model; the handover, the traces and the tracks meet it only through the assumptions above.
- The device objects behind the donors: a donor is its index, and the null checks on applications and devices other than the two donor globals are left out.
- The IMSI passed along with a migration: there is one IAB-MT that hands over, as in the program.
- Floating-point rounding, and sin, cos, sqrt and the random generator as functions.
- Worker threads and jobs as separate objects: the dispatcher is one object whose methods are the steps between which threads interleave; the fields of a job that only name and time it are one identifier.
- test.py outside dispatch, collection and join (discovery of tests, running a job, reports in text, XML and HTML).
- The decoding of each tail line from UTF-8: lines are byte strings.
- Regular expressions over Slurm scripts and logs, the parsing of CSV and log files, file names and directories: the numbers and names found are parameters.
- Playback events of an unknown kind: the log parser lets only the three kinds through.
- Bitrates of playback intervals, mean bitrate aggregation, smoothing, the interruption probability across runs, the median-user selection, and all plotting.
- `HandoverProgram.IabHandover.constructor`: starts from given relay state instead of an attached network.
- A source whose socket goes away and comes back under the same path between two rescans: a path stands for one source.
- The per-node `Traces` helper and its retries: nothing starts it any more, the rescan loop replaces it.
- The static placement of UEs when mobility is off: the same split over the clusters, with one draw a UE inside a smaller disc and nothing that changes over time.
- The TCP program's own copies of the handover, the geometry and the tracks: they are the same code.
