/** Never stuck: every reachable state can go on to its next commit. */
module CoreLiveness {
  import opened OooPackage
  import opened Isa
  import opened Wakeup
  import opened Core
  import opened CoreInvariant
  import opened CoreTable
  import opened CoreCycle
  import opened CoreLivenessSteps
  import CoreBuffer
  import CoreTheorems
  import Progress
  import RAT = RenameTable

  // ---- no dead ends ----

  /** How far the next commit is: a fetch, a dispatch, then issue, broadcast and commit of the head, each perhaps
      after a cycle in which the issue registers empty. */
  ghost function Rank<M>(s: State<M>): nat {
    if |s.w.ops| == 0 || |s.w.phases| == 0 then (if |s.queue| == 0 then 7 else 6)
    else 2 * (2 - Stage(s.w.phases[0])) + (if Recovers(s) || Progress.HeadRefused(s) then 1 else 0)
  }

  const FETCH := IDLE.(fetch := [Guess(false, 0)])
  const DISPATCH := IDLE.(dispatch := 1)

  lemma FetchFills<M>(isa: Isa<M>, s: State<M>)
    requires Inv(isa, s) && |s.w.ops| == 0 && |s.queue| == 0
    ensures Allowed(isa, s, FETCH) && var s' := Next(isa, s, FETCH); |s'.w.ops| == 0 && |s'.queue| > 0
  {
    hide Recover, RAT.FlushTable, Mispredicted, Inv;
    CoreTheorems.InvShape(isa, s);
  }

  lemma DispatchFills<M>(isa: Isa<M>, s: State<M>)
    requires Inv(isa, s) && |s.w.ops| == 0 && |s.queue| > 0
    ensures Allowed(isa, s, DISPATCH) && var s' := Next(isa, s, DISPATCH); |s'.w.ops| > 0
  {
    CoreTheorems.InvShape(isa, s);
    EmptyMeansFree(isa, s);
  }

  lemma EmptyMeansFree<M>(isa: Isa<M>, s: State<M>)
    requires Inv(isa, s) && |s.w.ops| == 0
    ensures FreeCkpt(s.used) < |s.used|
  {
    hide InOrder, Outcomes, Operands, Stores, Histories, Units;
  }

  /** An idle cycle empties the issue registers. */
  lemma IdleEmpties<M>(isa: Isa<M>, s: State<M>)
    requires Allowed(isa, s, IDLE) && !TakesTrap(s)
    ensures var s' := Next(isa, s, IDLE); s'.alu0.None? && s'.alu1.None? && s'.br.None?
  {
    hide Allowed, FrontHalf, AdvanceAll, Enqueue, RetireMany, RetireCount;
    CoreBuffer.FrontKeepsCompleted(isa, s, IDLE);
    RetireKeepsUnits(isa, Advance(isa, FrontHalf(isa, s, IDLE), IDLE), RetireCount(s, false));
  }

  lemma RetireKeepsUnits<M>(isa: Isa<M>, s: State<M>, n: nat)
    requires s.Shape() && n <= 2 && forall i :: 0 <= i < n ==> Completed(s, i)
    ensures var s' := RetireMany(isa, s, n); s'.alu0 == s.alu0 && s'.alu1 == s.alu1 && s'.br == s.br
  {
    hide WriteReg, RAT.ClearAll;
  }

  lemma IdleKeepsHead<M>(isa: Isa<M>, s: State<M>)
    requires Inv(isa, s) && |s.w.ops| > 0 && !TakesTrap(s) && Allowed(isa, s, IDLE)
    ensures s.Shape()
    ensures var s' := Next(isa, s, IDLE);
            s.log < s'.log || (|s'.w.ops| > 0 && |s'.w.phases| > 0 && Stage(s'.w.phases[0]) >= Stage(s.w.phases[0]))
  {
    hide Inv, Allowed, Next, FrontHalf, AdvanceOne, Mispredicted, TakesTrap;
    CoreTheorems.InvShape(isa, s);
    if s.w.phases[0].Done? {
      DoneHeadCommits(isa, s);
    } else {
      NoneRetire(s, false);
      CycleWindow(isa, s, IDLE);
      CoreBuffer.FrontFacts(isa, s, IDLE);
      StageRises(isa, FrontHalf(isa, s, IDLE), IDLE, 0);
    }
  }

  lemma StageRises<M>(isa: Isa<M>, s: State<M>, x: Inputs, i: nat)
    requires s.Shape() && i < |s.w.ops|
    ensures Stage(AdvanceOne(isa, s, x, i)) >= Stage(s.w.phases[i])
  {
    hide Execute, BusesOf, WakesOf, AllWakes, Resolve;
  }

  /** From any state some cycle commits something or brings the next commit nearer. */
  lemma ComesNearer<M>(isa: Isa<M>, s: State<M>) returns (x: Inputs)
    requires Inv(isa, s) && FaultsAreDone(s.w)
    ensures Allowed(isa, s, x) && (s.log < Next(isa, s, x).log || Rank(Next(isa, s, x)) < Rank(s))
    ensures OnlyHead(s, x)
  {
    hide Inv, Allowed, Next, TakesTrap;
    CoreTheorems.InvShape(isa, s);
    if |s.w.ops| == 0 {
      if |s.queue| == 0 {
        x := FETCH;
        FetchFills(isa, s);
      } else {
        x := DISPATCH;
        DispatchFills(isa, s);
      }
    } else if (Recovers(s) || Progress.HeadRefused(s)) && !TakesTrap(s) {
      x := IDLE;
      CoreTheorems.IdleIsAllowed(isa, s);
      IdleEmpties(isa, s);
      IdleKeepsHead(isa, s);
    } else if TakesTrap(s) {
      x := IDLE;
      CoreTheorems.IdleIsAllowed(isa, s);
      TrapLogs(isa, s);
    } else {
      x := HeadMoves(isa, s);
    }
  }

  /** Nothing committed is taken back. */
  lemma LogGrows<M>(isa: Isa<M>, s: State<M>, x: Inputs)
    requires Allowed(isa, s, x)
    ensures s.log <= Next(isa, s, x).log
  {
    hide Allowed, FrontHalf, Advance, RetireMany;
    if !Flushes(s, x) {
      CoreBuffer.FrontKeepsCompleted(isa, s, x);
      FrontLog(isa, s, x);
      AdvanceLog(isa, FrontHalf(isa, s, x), x);
      RetireLog(isa, Advance(isa, FrontHalf(isa, s, x), x), RetireCount(s, x.storeBufferFull));
    }
  }

  lemma FrontLog<M>(isa: Isa<M>, s: State<M>, x: Inputs)
    requires Allowed(isa, s, x) && !Flushes(s, x)
    ensures FrontHalf(isa, s, x).log == s.log
  {
    hide Lookup, Mispredicted, CanAdvance, Execute;
  }

  /** How many commit in a cycle without a trap or an interrupt: a finished head, unless it is a store and the buffer is
      full; and with it the next one, if it is finished without a fault, no control instruction, and, if it is a store,
      the only one and with room. */
  lemma CommitsOneOrTwo<M>(isa: Isa<M>, s: State<M>, x: Inputs)
    requires Inv(isa, s) && Allowed(isa, s, x) && !Flushes(s, x)
    ensures var (ops, ps, done) := (s.w.ops, s.w.phases, |Next(isa, s, x).log| - |s.log|);
            && 0 <= done <= 2
            && (done >= 1 <==> |ops| > 0 && |ps| > 0 && ps[0].Done? && !(ops[0].instr.cls == Store && x.storeBufferFull))
            && (done == 2 <==> done >= 1 && |ops| > 1 && |ps| > 1 && ps[1].Done? && !ps[1].out.exception && !ops[1].Control() &&
                               (ops[1].instr.cls == Store ==> ops[0].instr.cls != Store && !x.storeBufferFull))
  {
    hide Inv, Allowed, FrontHalf, Advance, RetireMany, Mispredicted;
    CoreBuffer.FrontKeepsCompleted(isa, s, x);
    FrontLog(isa, s, x);
    AdvanceLog(isa, FrontHalf(isa, s, x), x);
    RetireLog(isa, Advance(isa, FrontHalf(isa, s, x), x), RetireCount(s, x.storeBufferFull));
  }

  /** An interrupt is taken exactly when nothing is in flight, one is pending and an instruction waits in the fetch queue. */
  lemma InterruptsWhen<M>(isa: Isa<M>, s: State<M>, x: Inputs)
    requires Inv(isa, s) && Allowed(isa, s, x)
    ensures s.log <= Next(isa, s, x).log
    ensures |s.w.ops| == 0 && x.interrupt && |s.queue| > 0 ==> Next(isa, s, x).log == s.log + [Interrupted(s.arch.pc)]
    ensures !(|s.w.ops| == 0 && x.interrupt && |s.queue| > 0) ==>
              forall i :: |s.log| <= i < |Next(isa, s, x).log| ==> !Next(isa, s, x).log[i].Interrupted?
  {
    hide Outcomes, Operands, Renaming, Stores, Histories, Units, FrontHalf, Advance, RetireMany, Allowed;
    if !Flushes(s, x) {
      CoreBuffer.FrontKeepsCompleted(isa, s, x);
      FrontLog(isa, s, x);
      AdvanceLog(isa, FrontHalf(isa, s, x), x);
      RetireLog(isa, Advance(isa, FrontHalf(isa, s, x), x), RetireCount(s, x.storeBufferFull));
    }
  }

  /** A bundle of two that decode without a fault may dispatch together when the buffer has room for both and a checkpoint is
      free if one of them is a branch. */
  lemma BundleIsAllowed<M>(isa: Isa<M>, s: State<M>)
    requires Inv(isa, s) && s.Shape() && !TakesTrap(s) && !Recovers(s) && |s.queue| == 2 && |s.w.ops| + 2 <= ROB_SIZE
    requires forall i :: 0 <= i < 2 ==> s.queue[i].instr.cls != Fault && (s.queue[i].instr.cls == Branch ==> FreeCkpt(s.used) < |s.used|)
    requires !(s.queue[0].instr.cls == Branch && s.queue[1].instr.cls == Branch)
    ensures Allowed(isa, s, IDLE.(dispatch := 2))
  {
    hide Inv, Lookup, Execute, FreeCkpt, Recovers, RAT.SetMap;
  }

  lemma RunExtends<M>(isa: Isa<M>, states: seq<State<M>>, inputs: seq<Inputs>, x: Inputs)
    requires CoreTheorems.IsRun(isa, states, inputs)
    ensures |states| == |inputs| + 1
    ensures Allowed(isa, states[|inputs|], x) ==> CoreTheorems.IsRun(isa, states + [Next(isa, states[|inputs|], x)], inputs + [x])
  {
    hide Allowed, Next, CoreTheorems.Reset;
  }

  /** The machine is never stuck: every run, whatever happened in it, can be continued until something more commits,
      a retirement or a trap. */
  lemma {:induction false} CanAlwaysCommit<M>(isa: Isa<M>, states: seq<State<M>>, inputs: seq<Inputs>)
      returns (states': seq<State<M>>, inputs': seq<Inputs>)
    requires Decodes(isa) && CoreTheorems.IsRun(isa, states, inputs)
    ensures CoreTheorems.IsRun(isa, states', inputs') && |states| == |inputs| + 1 && |states'| == |inputs'| + 1
    ensures states <= states' && inputs <= inputs' && states[|inputs|].log < states'[|inputs'|].log
    decreases if |states| > |inputs| then Rank(states[|inputs|]) else 0
  {
    hide Inv, Allowed, Next, CoreTheorems.IsRun, Decodes, Rank, FaultsAreDone;
    CoreTheorems.RunLength(isa, states, inputs);
    var s := states[|inputs|];
    CoreTheorems.Reachable(isa, states, inputs, |inputs|);
    FaultsNeverWait(isa, states, inputs, |inputs|);
    var x := ComesNearer(isa, s);
    RunExtends(isa, states, inputs, x);
    LogGrows(isa, s, x);
    states', inputs' := states + [Next(isa, s, x)], inputs + [x];
    if !(s.log < Next(isa, s, x).log) {
      states', inputs' := CanAlwaysCommit(isa, states', inputs');
    }
  }
}
