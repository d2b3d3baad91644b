/** Inter-donor IAB backhaul handover: the callbacks of scratch/ntn-iab-quic-dash.cc (469-607) as functions
    on the program's globals, the environment they run in, and the proof that no descendant is ever lost. */
module Handover {
  import opened Wrappers

  // ---------- Relay state kept by the donors' EpcEnbApplications ----------

  /** The relay state of one descendant UE, identified by the UE. */
  datatype Context = Context(imsi: nat)

  /** Where relay state is registered: at a donor, under the RNTI the IAB-MT has there. */
  datatype Address = Address(donor: nat, rnti: nat)

  type Relays = map<Address, set<Context>>

  function At(r: Relays, a: Address): set<Context> {
    if a in r then r[a] else {}
  }

  /** The descendants a donor relays through the IAB-MT known there by this RNTI. */
  function ExportIabDescendants(r: Relays, donor: nat, rnti: nat): set<Context> {
    At(r, Address(donor, rnti))
  }

  function ImportIabDescendants(r: Relays, donor: nat, rnti: nat, ctx: set<Context>): Relays {
    r[Address(donor, rnti) := At(r, Address(donor, rnti)) + ctx]
  }

  /** Release goes by context, so it clears them from the donor under whatever RNTI they are held. */
  function ReleaseIabDescendants(r: Relays, donor: nat, ctx: set<Context>): Relays {
    map a | a in r :: if a.donor == donor then r[a] - ctx else r[a]
  }

  /** The arguments bound into one scheduled migration; a donor may be null. */
  datatype Migration = Migration(src: Option<nat>, tgt: Option<nat>, oldRnti: nat, newRnti: nat)

  function Migrate(r: Relays, m: Migration): Relays {
    if m.src.None? || m.tgt.None? then r
    else
      var ctx := ExportIabDescendants(r, m.src.value, m.oldRnti);
      ReleaseIabDescendants(ImportIabDescendants(r, m.tgt.value, m.newRnti, ctx), m.src.value, ctx)
  }

  // ---------- The program: globals and callbacks ----------

  datatype Scheduled = Scheduled(due: real, uid: nat, m: Migration)

  /** The globals of the program, the relay state and the simulator's queue of deferred migrations. */
  datatype Program = Program(
    pending: bool, src: Option<nat>, tgt: Option<nat>, oldRnti: nat,
    tuned: Option<nat>, relays: Relays, queue: seq<Scheduled>, nextUid: nat, aborted: bool)

  function OnTrigger(p: Program, src: nat, tgt: nat, rnti: nat, hasUe: bool): Program {
    if !hasUe then p
    else if p.pending then p.(aborted := true)
    else p.(pending := true, src := Some(src), tgt := Some(tgt), oldRnti := rnti)
  }

  function OnStart(p: Program, donorByCell: map<nat, nat>, cell: nat): Program {
    if cell in donorByCell then p.(tuned := Some(donorByCell[cell])) else p
  }

  function OnEndOk(p: Program, execDelay: real, now: real, rnti: nat): Program {
    var m := Migration(p.src, p.tgt, p.oldRnti, rnti);
    if execDelay > 0.0 then
      p.(queue := p.queue + [Scheduled(now + execDelay, p.nextUid, m)], nextUid := p.nextUid + 1, pending := false)
    else
      p.(relays := Migrate(p.relays, m), pending := false)
  }

  function OnEndError(p: Program): Program {
    p.(pending := false)
  }

  /** The simulator takes one scheduled migration off its queue and runs it. */
  function OnFire(p: Program, i: nat): Program
    requires i < |p.queue|
  {
    p.(relays := Migrate(p.relays, p.queue[i].m), queue := p.queue[..i] + p.queue[i + 1..])
  }

  // ---------- The environment and its steps ----------

  datatype Request = Request(src: nat, tgt: nat)

  /** `mtRnti` is what the IAB-MT's RRC reports, `serving` the last address it connected at,
      `request` the handover the radio is carrying out; the times are the simulator's. */
  datatype World = World(
    prog: Program, mtRnti: nat, serving: Address, request: Option<Request>, started: bool,
    now: real, lastEnd: real, lastTrigger: real, triggers: nat)

  /** `cells[d]` is the cell id of donor d. */
  datatype Config = Config(execDelay: real, cells: seq<nat>)

  datatype Event =
    | Trigger(at: real, src: nat, tgt: nat, hasUe: bool)
    | Start(at: real, mtRnti: nat)
    | EndOk(at: real, rnti: nat)
    | EndError(at: real, rnti: nat)
    | Fire(at: real, index: nat)

  /** The simulator runs the event with the least (due time, uid). */
  ghost predicate Earliest(q: seq<Scheduled>, i: nat)
    requires i < |q|
  {
    forall j :: 0 <= j < |q| ==> q[i].due < q[j].due || (q[i].due == q[j].due && q[i].uid <= q[j].uid)
  }

  /** The simulator's order: time never goes back and never passes a queued event. */
  ghost predicate InTime(w: World, e: Event) {
    && w.now <= e.at
    && (forall j :: 0 <= j < |w.prog.queue| ==> e.at <= w.prog.queue[j].due)
  }

  /** What the radio stack guarantees about each callback. HasUeManager may be answered either way, but while
      no handover is outstanding a positive answer means the MT is served by that donor under the RNTI it
      reports. During a handover any donor may know that RNTI: the target gets to know it as the MT joins. */
  ghost predicate Enabled(c: Config, w: World, e: Event) {
    && !w.prog.aborted
    && InTime(w, e)
    && match e
       case Trigger(_, src, tgt, hasUe) =>
         && src < |c.cells| && tgt < |c.cells| && src != tgt
         && (hasUe && w.request.None? ==> Address(src, w.mtRnti) == w.serving)
       case Start(_, _) => w.request.Some? && !w.started && w.request.value.tgt < |c.cells|
       case EndOk(_, rnti) =>
         && w.request.Some? && w.started
         && At(w.prog.relays, Address(w.request.value.tgt, rnti)) == {}
       case EndError(_, _) => w.request.Some?
       case Fire(at, i) => i < |w.prog.queue| && Earliest(w.prog.queue, i) && at == w.prog.queue[i].due
  }

  /** The cell-to-donor table as the set-up loop leaves it: the last donor with a cell id wins. */
  function DonorByCell(cells: seq<nat>): (table: map<nat, nat>)
    ensures forall d :: 0 <= d < |cells| ==> cells[d] in table && d <= table[cells[d]]
    ensures forall cell :: cell in table ==> table[cell] < |cells| && cells[table[cell]] == cell
  {
    if cells == [] then map[]
    else
      var last := |cells| - 1;
      assert forall d :: 0 <= d < last ==> cells[d] == cells[..last][d];
      DonorByCell(cells[..last])[cells[last] := last]
  }

  ghost function Step(c: Config, w: World, e: Event): World
    requires Enabled(c, w, e)
  {
    match e
    case Trigger(at, src, tgt, hasUe) =>
      var w' := w.(prog := OnTrigger(w.prog, src, tgt, w.mtRnti, hasUe), now := at, triggers := w.triggers + 1);
      if hasUe && !w.prog.pending
      then w'.(request := Some(Request(src, tgt)), started := false, lastTrigger := at)
      else w'
    case Start(at, mtRnti) =>
      w.(prog := OnStart(w.prog, DonorByCell(c.cells), c.cells[w.request.value.tgt]),
         mtRnti := mtRnti, started := true, now := at)
    case EndOk(at, rnti) =>
      w.(prog := OnEndOk(w.prog, c.execDelay, at, rnti), mtRnti := rnti,
         serving := Address(w.request.value.tgt, rnti), request := None, started := false, now := at, lastEnd := at)
    case EndError(at, rnti) =>
      w.(prog := OnEndError(w.prog), mtRnti := rnti, request := None, started := false, now := at)
    case Fire(at, i) =>
      w.(prog := OnFire(w.prog, i), now := at)
  }
}
