/** The predictor's two global-history registers, clocked as the design clocks them, and how the step
    machine drives them. */
module BranchHistory {
  import opened Prelude
  import opened Isa
  import opened Dataflow
  import opened Core
  import opened CoreInvariant
  import opened CoreTable
  import CoreBuffer

  /** The registers' inputs for one edge. */
  datatype Ports = Ports(restoreRetired: bool, recover: bool, recoverValue: History, shift: Option<bool>, retire: Option<bool>)

  datatype Registers = Registers(spec: History, retired: History)

  function Edge(h: Registers, p: Ports): Registers {
    var retired := if p.retire.Some? then Shift(h.retired, p.retire.value) else h.retired;
    Registers(
      if p.restoreRetired then retired
      else if p.recover then p.recoverValue
      else if p.shift.Some? then Shift(h.spec, p.shift.value)
      else h.spec,
      retired)
  }

  class BranchHistory {
    var spec: History
    var retired: History

    constructor ()
      ensures spec == retired == NO_HISTORY
    {
      spec, retired := NO_HISTORY, NO_HISTORY;
    }

    method Clock(p: Ports)
      modifies this
      ensures Registers(spec, retired) == Edge(old(Registers(spec, retired)), p)
    {
      if p.restoreRetired {
        spec := if p.retire.Some? then Shift(retired, p.retire.value) else retired;
      } else if p.recover {
        spec := p.recoverValue;
      } else if p.shift.Some? {
        spec := Shift(spec, p.shift.value);
      }
      if p.retire.Some? {
        retired := Shift(retired, p.retire.value);
      }
    }
  }

  // ---- the step machine's drive ----

  /** A branch opcode shifts in the guessed direction, an illegal one too. */
  function Direct(p: Op, g: Guess): Option<bool> {
    if p.instr.conditional then Some(g.taken) else None
  }

  /** The one shift a fetch causes, if the packets that enter the queue hold a conditional branch. */
  function FetchShift<M>(isa: Isa<M>, s: State<M>, gs: seq<Guess>): Option<bool> {
    if |gs| == 0 then None
    else
      var p0 := MakePacket(isa, s.fetchPc, gs[0], s.ghrSpec);
      if |s.queue| == 0 then
        if |gs| == 1 then Direct(p0, gs[0])
        else
          var p1 := MakePacket(isa, isa.fallThrough(s.fetchPc), gs[1], s.ghrSpec);
          if LetsFollow(p0, p1) && p1.instr.conditional then Direct(p1, gs[1]) else Direct(p0, gs[0])
      else if |s.queue| == 1 && LetsFollow(s.queue[0], p0) then Direct(p0, gs[0])
      else None
  }

  function HistoryPorts<M>(isa: Isa<M>, s: State<M>, x: Core.Inputs): Ports
    requires Inv(isa, s) && Allowed(isa, s, x)
  {
    var recovers := Recovers(s) && !Flushes(s, x);
    var b := if s.br.Some? then s.w.IndexOf(s.br.value) else 0;
    Ports(
      Flushes(s, x), recovers,
      if recovers then
        (if s.w.ops[b].instr.conditional then Shift(s.w.ops[b].ghr, s.w.phases[b].out.taken) else s.w.ops[b].ghr)
      else NO_HISTORY,
      if Flushes(s, x) || Recovers(s) then None else FetchShift(isa, BeforeFetch(isa, s, x), x.fetch),
      if Committing(s, x) >= 1 && s.w.ops[0].instr.conditional then Some(s.w.phases[0].out.taken) else None)
  }

  function BeforeFetch<M>(isa: Isa<M>, s: State<M>, x: Core.Inputs): State<M>
    requires Allowed(isa, s, x) && !Flushes(s, x)
  {
    BackHalf(isa, FrontHalf(isa, s, x), x, RetireCount(s, x.storeBufferFull))
  }

  lemma FetchShifts<M>(isa: Isa<M>, s: State<M>, gs: seq<Guess>)
    requires s.Shape()
    ensures var s', d := Fetch(isa, s, gs), FetchShift(isa, s, gs);
            s'.ghrRetired == s.ghrRetired && s'.ghrSpec == if d.Some? then Shift(s.ghrSpec, d.value) else s.ghrSpec
  {
    hide LetsFollow, Shift;
  }

  /** Only the first of two committing instructions can be a branch. */
  lemma RetireShifts<M>(isa: Isa<M>, s: State<M>, n: nat)
    requires s.Shape() && n <= 2 && n <= |s.w.ops| && (forall i :: 0 <= i < n ==> Completed(s, i))
    requires (n >= 1 ==> Completed(s, 0)) && (n == 2 ==> !s.w.ops[1].Control())
    ensures var s' := RetireMany(isa, s, n);
            && s'.ghrSpec == s.ghrSpec && s'.queue == s.queue && s'.fetchPc == s.fetchPc
            && s'.ghrRetired == if n >= 1 && s.w.ops[0].instr.conditional then Shift(s.ghrRetired, s.w.phases[0].out.taken) else s.ghrRetired
  {
    hide Shift, WriteReg;
  }

  lemma SecondIsSimple<M>(s: State<M>, full: bool)
    ensures RetireCount(s, full) == 2 ==> |s.w.ops| > 1 && !s.w.ops[1].Control()
    ensures RetireCount(s, full) >= 1 ==> |s.w.ops| > 0 && Completed(s, 0)
  {
  }

  lemma FrontHistory<M>(isa: Isa<M>, s: State<M>, x: Core.Inputs)
    requires Inv(isa, s) && Allowed(isa, s, x) && !Flushes(s, x)
    ensures var s1 := FrontHalf(isa, s, x);
            && s1.ghrRetired == s.ghrRetired
            && s1.ghrSpec == if Recovers(s) then HistoryPorts(isa, s, x).recoverValue else s.ghrSpec
  {
    hide Outcomes, Operands, Renaming, Stores, Histories, InOrder, Units, Lookup, Execute, Mispredicted, FreeCkpt, KeepOlder,
         ReleaseYounger, CanAdvance, Shift, BeforeFetch;
  }

  lemma AdvanceHistory<M>(isa: Isa<M>, s: State<M>, x: Core.Inputs)
    requires s.Shape()
    ensures Advance(isa, s, x).ghrRetired == s.ghrRetired && Advance(isa, s, x).ghrSpec == s.ghrSpec
  {
  }

  /** One step of the machine is one edge of the history registers. */
  lemma HistoryFollowsPorts<M>(isa: Isa<M>, s: State<M>, x: Core.Inputs)
    requires Inv(isa, s) && Allowed(isa, s, x)
    ensures var s' := Core.Next(isa, s, x);
            Registers(s'.ghrSpec, s'.ghrRetired) == Edge(Registers(s.ghrSpec, s.ghrRetired), HistoryPorts(isa, s, x))
  {
    hide Inv, Allowed, FrontHalf, Advance, RetireMany, Fetch, Flush, Shift, RetireCount, Mispredicted, CanAdvance, FetchShift;
    SecondIsSimple(s, x.storeBufferFull);
    if Flushes(s, x) {
      FlushHistory(isa, s, x);
    } else {
      var n, s1 := RetireCount(s, x.storeBufferFull), FrontHalf(isa, s, x);
      var s2 := Advance(isa, s1, x);
      CoreBuffer.FrontFacts(isa, s, x);
      FrontHistory(isa, s, x);
      AdvanceHistory(isa, s1, x);
      CoreBuffer.AdvanceSizes(isa, s1, x);
      CoreBuffer.FrontKeepsCompleted(isa, s, x);
      OldestAlike(isa, s, x);
      RetireShifts(isa, s2, n);
      FetchShifts(isa, BackHalf(isa, s1, x, n), x.fetch);
    }
  }

  lemma FlushHistory<M>(isa: Isa<M>, s: State<M>, x: Core.Inputs)
    requires Allowed(isa, s, x) && Flushes(s, x)
    ensures Core.Next(isa, s, x).ghrSpec == Core.Next(isa, s, x).ghrRetired == s.ghrRetired
  {
  }

  /** Commit looks at the same oldest entries before and after the rest of the cycle. */
  lemma OldestAlike<M>(isa: Isa<M>, s: State<M>, x: Core.Inputs)
    requires Inv(isa, s) && Allowed(isa, s, x) && !Flushes(s, x)
    ensures var n, w' := RetireCount(s, x.storeBufferFull), Advance(isa, FrontHalf(isa, s, x), x).w;
            && (n >= 1 ==> |w'.ops| >= 1 && |w'.phases| >= 1 && w'.ops[0] == s.w.ops[0] && w'.phases[0] == s.w.phases[0])
            && (n == 2 ==> |w'.ops| >= 2 && w'.ops[1] == s.w.ops[1])
  {
    hide Inv, Allowed, FrontHalf, Advance, Mispredicted, CanAdvance;
    var n, s1 := RetireCount(s, x.storeBufferFull), FrontHalf(isa, s, x);
    CoreBuffer.FrontFacts(isa, s, x);
    CoreBuffer.AdvanceSizes(isa, s1, x);
    CoreBuffer.FrontKeepsCompleted(isa, s, x);
    if n >= 1 {
      CoreBuffer.OldEntrySame(isa, s, x, 0);
      if n == 2 {
        CoreBuffer.OldEntrySame(isa, s, x, 1);
      }
    }
  }
}
