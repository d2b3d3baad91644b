/** The callbacks in the source's own form: they read and write the program's globals. Each is proved to do
    exactly what its function in module Handover says, which is what the run theorems are about. */
module HandoverProgram {
  import opened Wrappers
  import opened Handover
  import opened HandoverSafety

  class IabHandover {
    const execDelay: real
    var donorByCell: map<nat, nat>
    var pending: bool
    var srcDonor: Option<nat>
    var tgtDonor: Option<nat>
    var oldIabRnti: nat
    var backhaulTarget: Option<nat>
    var relays: Relays
    var queue: seq<Scheduled>
    var nextUid: nat
    var aborted: bool

    function Globals(): Program
      reads this
    {
      Program(pending, srcDonor, tgtDonor, oldIabRnti, backhaulTarget, relays, queue, nextUid, aborted)
    }

    constructor (execDelay: real, relays: Relays)
      ensures this.execDelay == execDelay && donorByCell == map[]
      ensures Globals() == Program(false, None, None, 0, None, relays, [], 0, false)
    {
      this.execDelay, this.relays, donorByCell := execDelay, relays, map[];
      pending, srcDonor, tgtDonor, oldIabRnti := false, None, None, 0;
      backhaulTarget, queue, nextUid, aborted := None, [], 0, false;
    }

    /** Fills the cell-to-donor table from the donor list. */
    method RegisterDonors(cells: seq<nat>)
      requires donorByCell == map[]
      modifies this`donorByCell
      ensures donorByCell == DonorByCell(cells)
      ensures forall d :: 0 <= d < |cells| && (forall e :: d < e < |cells| ==> cells[e] != cells[d]) ==>
                cells[d] in donorByCell && donorByCell[cells[d]] == d
    {
      for s := 0 to |cells|
        invariant donorByCell == DonorByCell(cells[..s])
      {
        donorByCell := donorByCell[cells[s] := s];
        assert cells[..s + 1][..s] == cells[..s];
      }
      assert cells[..|cells|] == cells;
    }

    method HandoverStart(targetCellId: nat)
      modifies this`backhaulTarget
      ensures Globals() == OnStart(old(Globals()), donorByCell, targetCellId)
    {
      if targetCellId in donorByCell {
        backhaulTarget := Some(donorByCell[targetCellId]);
      }
    }

    method MigrateIabDescendants(src: Option<nat>, tgt: Option<nat>, oldRnti: nat, newRnti: nat)
      modifies this`relays
      ensures relays == Migrate(old(relays), Migration(src, tgt, oldRnti, newRnti))
    {
      if src.None? || tgt.None? {
        return;
      }
      var ctx := ExportIabDescendants(relays, src.value, oldRnti);
      relays := ImportIabDescendants(relays, tgt.value, newRnti, ctx);
      relays := ReleaseIabDescendants(relays, src.value, ctx);
    }

    method HandoverEndOk(now: real, rnti: nat)
      modifies this`relays, this`queue, this`nextUid, this`pending
      ensures Globals() == OnEndOk(old(Globals()), execDelay, now, rnti)
    {
      if execDelay > 0.0 {
        queue := queue + [Scheduled(now + execDelay, nextUid, Migration(srcDonor, tgtDonor, oldIabRnti, rnti))];
        nextUid := nextUid + 1;
      } else {
        MigrateIabDescendants(srcDonor, tgtDonor, oldIabRnti, rnti);
      }
      pending := false;
    }

    method HandoverEndError()
      modifies this`pending
      ensures Globals() == OnEndError(old(Globals()))
    {
      pending := false;
    }

    method TriggerIabBackhaulHandover(src: nat, tgt: nat, rnti: nat, hasUeManager: bool)
      modifies this`pending, this`srcDonor, this`tgtDonor, this`oldIabRnti, this`aborted
      ensures Globals() == OnTrigger(old(Globals()), src, tgt, rnti, hasUeManager)
    {
      if hasUeManager {
        if pending {
          aborted := true;
          return;
        }
        pending := true;
        srcDonor := Some(src);
        tgtDonor := Some(tgt);
        oldIabRnti := rnti;
      }
    }

    /** The simulator runs the queued migration i. */
    method RunScheduled(i: nat)
      requires i < |queue|
      modifies this`relays, this`queue
      ensures Globals() == OnFire(old(Globals()), i)
    {
      var m := queue[i].m;
      queue := queue[..i] + queue[i + 1..];
      MigrateIabDescendants(m.src, m.tgt, m.oldRnti, m.newRnti);
    }
  }

  /** One callback. Of the environment only the MT's RNTI and the target of its handover are kept. */
  method RunCallback(program: IabHandover, c: Config, ghost w: World, mtRnti: nat, target: nat, e: Event)
    returns (mtRnti': nat, target': nat)
    requires program.Globals() == w.prog && mtRnti == w.mtRnti && Enabled(c, w, e)
    requires w.request.Some? ==> target == w.request.value.tgt
    requires program.donorByCell == DonorByCell(c.cells) && program.execDelay == c.execDelay
    modifies program
    ensures program.donorByCell == old(program.donorByCell)
    ensures var w' := Step(c, w, e);
            && program.Globals() == w'.prog && mtRnti' == w'.mtRnti
            && (w'.request.Some? ==> target' == w'.request.value.tgt)
  {
    mtRnti', target' := mtRnti, target;
    match e {
      case Trigger(_, src, tgt, hasUe) =>
        if hasUe && !program.pending {
          target' := tgt;
        }
        program.TriggerIabBackhaulHandover(src, tgt, mtRnti, hasUe);
      case Start(_, rnti) =>
        program.HandoverStart(c.cells[target]);
        mtRnti' := rnti;
      case EndOk(at, rnti) =>
        program.HandoverEndOk(at, rnti);
        mtRnti' := rnti;
      case EndError(_, rnti) =>
        program.HandoverEndError();
        mtRnti' := rnti;
      case Fire(_, index) =>
        program.RunScheduled(index);
    }
  }

  /** The simulator's side: calls the callbacks in the order of the events. Whatever run of the protocol that is,
      the globals end up as in that run. */
  method RunCallbacks(program: IabHandover, c: Config, ghost w0: World, mtRnti0: nat, es: seq<Event>)
    requires program.Globals() == w0.prog && mtRnti0 == w0.mtRnti && w0.request.None?
    requires program.donorByCell == DonorByCell(c.cells) && program.execDelay == c.execDelay
    requires Feasible(c, w0, es)
    modifies program
    ensures program.Globals() == Run(c, w0, es).prog
  {
    var mtRnti, target := mtRnti0, 0;
    ghost var w := w0;
    for i := 0 to |es|
      invariant program.Globals() == w.prog && mtRnti == w.mtRnti
      invariant program.donorByCell == DonorByCell(c.cells)
      invariant w.request.Some? ==> target == w.request.value.tgt
      invariant Feasible(c, w, es[i..]) && Run(c, w, es[i..]) == Run(c, w0, es)
    {
      assert es[i..][0] == es[i] && es[i..][1..] == es[i + 1..];
      mtRnti, target := RunCallback(program, c, w, mtRnti, target, es[i]);
      w := Step(c, w, es[i]);
    }
  }
}
