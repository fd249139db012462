/** The main results about the back end, over whole runs. */
module CoreTheorems {
  import opened Prelude
  import opened OooPackage
  import opened Isa
  import opened Wakeup
  import opened Dataflow
  import opened Core
  import opened CoreInvariant
  import CoreRecover
  import CoreDispatch
  import CoreAdvance
  import CoreRetire
  import CoreFetch
  import RAT = RenameTable

  // ---- one step ----

  lemma TrapIsStep<M>(isa: Isa<M>, s: State<M>)
    requires Inv(isa, s) && TakesTrap(s)
    ensures Step(isa, s.arch, Trapped(s.w.ops[0].pc, s.w.phases[0].out.cause, s.w.phases[0].out.tval)) ==
            Some(s.arch.(pc := isa.trapVector))
    ensures Means(isa, s.arch, Trapped(s.w.ops[0].pc, s.w.phases[0].out.cause, s.w.phases[0].out.tval), s.arch.(pc := isa.trapVector))
  {
    hide Operands, Renaming, Units, Histories, Stores, Execute, Means;
    CoreRetire.HeadIsNext(isa, s);
    assert s.w.phases[0].out == Spec(isa, s.Flow(), s.w.ops, 0);
    assert FlowAt(isa, s.Flow(), s.w.ops, 0) == s.Flow();
    StepMeans(isa, s.arch, Trapped(s.w.ops[0].pc, s.w.phases[0].out.cause, s.w.phases[0].out.tval));
  }

  lemma InterruptIsStep<M>(isa: Isa<M>, s: State<M>, x: Inputs)
    requires Inv(isa, s) && TakesInterrupt(s, x)
    ensures Step(isa, s.arch, Interrupted(s.queue[0].pc)) == Some(s.arch.(pc := isa.trapVector))
  {
    hide Operands, Renaming, Units, Histories, Stores, Outcomes, Current;
    assert s.queue[0].pc == QueuePc(isa, PcAt(isa, s.arch.pc, s.w, 0), s.queue, 0);
  }

  lemma FlushCommits<M>(isa: Isa<M>, init: Arch<M>, s: State<M>, e: Event)
    requires s.Shape() && Committed(isa, init, s) && !e.Retired? && Step(isa, s.arch, e) == Some(s.arch.(pc := isa.trapVector))
    ensures Committed(isa, init, Flush(isa, s, e))
  {
    hide Step, Replay, ShiftAll;
    ReplayExtends(isa, init, s.log, e);
    assert (s.log + [e])[..|s.log|] == s.log;
    var ds := RetiredDirections(isa, s.log);
    assert ds + [] == ds;
  }

  /** The front half of a cycle keeps the invariant, commits nothing, and leaves no unhandled misprediction. */
  lemma FrontHalfKeepsInv<M>(isa: Isa<M>, s: State<M>, x: Inputs)
    requires Inv(isa, s) && Allowed(isa, s, x) && !TakesTrap(s) && !TakesInterrupt(s, x)
    ensures var s' := FrontHalf(isa, s, x);
            Inv(isa, s') && !Recovers(s') && s'.log == s.log && s'.arch == s.arch && s'.ghrRetired == s.ghrRetired && CanAdvance(s, s', x)
  {
    hide InOrder, Outcomes, Operands, Renaming, Units, Stores, Histories, CanAdvance, Lookup, RAT.SetCurrent, RAT.Save, RAT.Restore, KeepOlder,
         ReleaseYounger, FreeCkpt;
    if Recovers(s) {
      CoreRecover.RecoverKeepsInv(isa, s);
    } else if x.dispatch > 0 {
      CoreDispatch.DispatchKeepsInv(isa, s);
      DispatchRecoversNot(isa, s);
      if x.dispatch == 2 {
        CoreDispatch.DispatchKeepsInv(isa, Dispatch(isa, s));
        DispatchRecoversNot(isa, Dispatch(isa, s));
      }
    }
  }

  lemma DispatchRecoversNot<M>(isa: Isa<M>, s: State<M>)
    requires Inv(isa, s) && CanDispatch(s) && !Recovers(s)
    ensures var s' := Dispatch(isa, s); !Recovers(s') && s'.log == s.log && s'.arch == s.arch && s'.ghrRetired == s.ghrRetired
  {
    hide InOrder, Outcomes, Operands, Renaming, Stores, Histories, Lookup, Mispredicted;
  }

  lemma RetireManyKeeps<M>(isa: Isa<M>, init: Arch<M>, s: State<M>, n: nat)
    requires Inv(isa, s) && Committed(isa, init, s) && n <= 2 && forall i :: 0 <= i < n ==> Completed(s, i)
    ensures Inv(isa, RetireMany(isa, s, n)) && Committed(isa, init, RetireMany(isa, s, n))
  {
    hide InOrder, Outcomes, Operands, Renaming, Units, Stores, Histories, Committed, Retire;
    if n > 0 {
      CoreRetire.RetireKeepsInv(isa, s);
      CoreRetire.RetireIsCommitted(isa, init, s);
      if n == 2 {
        CoreRetire.RetireKeepsInv(isa, Retire(isa, s));
        CoreRetire.RetireIsCommitted(isa, init, Retire(isa, s));
      }
    }
  }

  lemma BackHalfKeeps<M>(isa: Isa<M>, init: Arch<M>, s0: State<M>, s: State<M>, x: Inputs, n: nat)
    requires Decodes(isa) && Inv(isa, s) && Committed(isa, init, s) && CanAdvance(s0, s, x) && !Recovers(s)
    requires n <= 2 && forall i :: 0 <= i < n ==> Completed(s, i)
    ensures Inv(isa, BackHalf(isa, s, x, n)) && Committed(isa, init, BackHalf(isa, s, x, n))
  {
    hide InOrder, Outcomes, Operands, Renaming, Units, Stores, Histories, CanAdvance, AdvanceAll, RetireMany, Enqueue, Replay, Completed;
    CoreAdvance.AdvanceKeepsInv(isa, s0, s, x);
    RetireManyKeeps(isa, init, Advance(isa, s, x), n);
  }

  /** Every step keeps the invariant, and keeps the committed part equal to a sequential run. */
  lemma NextKeeps<M>(isa: Isa<M>, init: Arch<M>, s: State<M>, x: Inputs)
    requires Decodes(isa) && Inv(isa, s) && Committed(isa, init, s) && Allowed(isa, s, x)
    ensures Inv(isa, Next(isa, s, x)) && Committed(isa, init, Next(isa, s, x))
  {
    hide InOrder, Outcomes, Operands, Renaming, Units, Stores, Histories, CanAdvance, Allowed, Flush, FrontHalf, BackHalf, Fetch, Replay,
         RetireCount, Step, Mispredicted;
    if TakesTrap(s) {
      var e := Trapped(s.w.ops[0].pc, s.w.phases[0].out.cause, s.w.phases[0].out.tval);
      CoreDispatch.FlushKeepsInv(isa, s, e);
      TrapIsStep(isa, s);
      FlushCommits(isa, init, s, e);
    } else if TakesInterrupt(s, x) {
      CoreDispatch.FlushKeepsInv(isa, s, Interrupted(s.queue[0].pc));
      InterruptIsStep(isa, s, x);
      FlushCommits(isa, init, s, Interrupted(s.queue[0].pc));
    } else {
      FrontHalfKeepsInv(isa, s, x);
      var s1, n := FrontHalf(isa, s, x), RetireCount(s, x.storeBufferFull);
      BackHalfKeeps(isa, init, s, s1, x, n);
      CoreFetch.FetchKeepsInv(isa, BackHalf(isa, s1, x, n), x.fetch);
    }
  }

  // ---- runs ----

  /** The machine out of reset, about to execute from `arch`. */
  ghost predicate Reset<M>(isa: Isa<M>, s: State<M>) {
    && s.Shape() && s.w.ops == [] && s.queue == [] && s.sq == [] && s.log == []
    && s.alu0 == None && s.alu1 == None && s.br == None
    && (forall r: Reg :: !s.rat.current.busy[r]) && (forall k :: 0 <= k < RAT.CKPTS ==> !s.used[k])
    && s.fetchPc == s.arch.pc && s.ghrSpec == s.ghrRetired == NO_HISTORY
  }

  lemma ResetHolds<M>(isa: Isa<M>, s: State<M>)
    requires Reset(isa, s)
    ensures Inv(isa, s) && Committed(isa, s.arch, s)
  {
    hide Replay, ShiftAll, Directions, Predictions;
    NothingShifted();
    assert Replay(isa, s.arch, []) == Some(s.arch) by { NothingReplayed(isa, s.arch); }
    assert RetiredDirections(isa, []) == [];
    assert Directions(s.w.ops, s.w.phases, 0) == [] && Predictions(s.queue, 0) == [] by { NothingInFlight(s.w.ops, s.w.phases, s.queue); }
  }

  lemma NothingShifted()
    ensures ShiftAll(NO_HISTORY, []) == NO_HISTORY
  {
  }

  lemma NothingReplayed<M>(isa: Isa<M>, a: Arch<M>)
    requires a.Valid()
    ensures Replay(isa, a, []) == Some(a)
  {
  }

  lemma NothingInFlight(ops: seq<Op>, ps: seq<Phase>, q: seq<Op>)
    ensures Directions(ops, ps, 0) == [] && Predictions(q, 0) == []
  {
  }

  /** A run: each state follows from the one before under some allowed inputs. */
  ghost predicate IsRun<M>(isa: Isa<M>, states: seq<State<M>>, inputs: seq<Inputs>) {
    && |states| == |inputs| + 1 && Reset(isa, states[0])
    && forall i :: 0 <= i < |inputs| ==> Allowed(isa, states[i], inputs[i]) && states[i + 1] == Next(isa, states[i], inputs[i])
  }

  /** Every reachable state satisfies the invariant and agrees with the sequential machine. */
  lemma {:induction false} Reachable<M>(isa: Isa<M>, states: seq<State<M>>, inputs: seq<Inputs>, n: nat)
    requires Decodes(isa) && IsRun(isa, states, inputs) && n < |states|
    ensures Inv(isa, states[n]) && Committed(isa, states[0].arch, states[n])
  {
    hide Inv, Allowed, Next, Committed;
    if n == 0 {
      ResetHolds(isa, states[0]);
    } else {
      Reachable(isa, states, inputs, n - 1);
      ResetShape(isa, states[0]);
      InvShape(isa, states[n - 1]);
      NextKeeps(isa, states[0].arch, states[n - 1], inputs[n - 1]);
    }
  }

  /** Event k is what its instruction calls for in the state the events before it lead to: its trap's cause and
      value, its registers, its memory, its next PC. */
  ghost predicate EventMeans<M>(isa: Isa<M>, start: Arch<M>, log: seq<Event>, k: nat)
    requires start.Valid() && k < |log|
  {
    var (before, after) := (Replay(isa, start, log[..k]), Replay(isa, start, log[..k + 1]));
    before.Some? && after.Some? && Means(isa, before.value, log[k], after.value)
  }

  /** The refinement theorem: whatever the predictions, latencies, arbitration and dispatch widths, at every
      point of every run the committed state is what the sequential machine reaches on the logged events, and
      each event is what its instruction calls for. */
  lemma CommitsInProgramOrder<M>(isa: Isa<M>, states: seq<State<M>>, inputs: seq<Inputs>, n: nat)
    requires Decodes(isa) && IsRun(isa, states, inputs) && n < |states|
    ensures states[0].arch.Valid() && Replay(isa, states[0].arch, states[n].log) == Some(states[n].arch)
    ensures forall k :: 0 <= k < |states[n].log| ==> EventMeans(isa, states[0].arch, states[n].log, k)
    ensures states[n].ghrRetired == ShiftAll(NO_HISTORY, RetiredDirections(isa, states[n].log))
  {
    hide Inv, IsRun, ShiftAll, Replay, RetiredDirections, EventMeans;
    Reachable(isa, states, inputs, n);
    forall k | 0 <= k < |states[n].log|
      ensures EventMeans(isa, states[0].arch, states[n].log, k)
    {
      EventIsStep(isa, states[0].arch, states[n].log, k);
    }
  }

  lemma EventIsStep<M>(isa: Isa<M>, start: Arch<M>, log: seq<Event>, k: nat)
    requires start.Valid() && Replay(isa, start, log).Some? && k < |log|
    ensures EventMeans(isa, start, log, k)
  {
    hide Step, Means;
    ReplayPrefix(isa, start, log, k);
    ReplayPrefix(isa, start, log, k + 1);
    assert log[..k + 1][..k] == log[..k];
    StepMeans(isa, Replay(isa, start, log[..k]).value, log[k]);
  }

  lemma ResetShape<M>(isa: Isa<M>, s: State<M>)
    requires Reset(isa, s)
    ensures s.Shape()
  {
  }

  lemma InvShape<M>(isa: Isa<M>, s: State<M>)
    requires Inv(isa, s)
    ensures s.Shape()
  {
  }

  // ---- what the log can be ----

  /** Apart from when an interrupt arrives, the sequential machine leaves no choice of event. */
  lemma EventDetermined<M>(isa: Isa<M>, s: Arch<M>, e: Event, e': Event)
    requires s.Valid() && Step(isa, s, e).Some? && Step(isa, s, e').Some?
    requires e.Interrupted? <==> e'.Interrupted?
    ensures e == e'
  {
    hide Execute;
  }

  lemma {:induction false} ReplayPrefix<M>(isa: Isa<M>, s: Arch<M>, events: seq<Event>, n: nat)
    requires s.Valid() && n <= |events| && Replay(isa, s, events).Some?
    ensures Replay(isa, s, events[..n]).Some?
    decreases |events|
  {
    hide Step;
    if n < |events| {
      ReplayPrefix(isa, s, events[..|events| - 1], n);
      assert events[..|events| - 1][..n] == events[..n];
    } else {
      assert events[..n] == events;
    }
  }

  /** Two logs of the same program with interrupts in the same places agree as far as both go. */
  lemma {:induction false} LogsAgree<M>(isa: Isa<M>, s: Arch<M>, a: seq<Event>, b: seq<Event>)
    requires s.Valid() && Replay(isa, s, a).Some? && Replay(isa, s, b).Some? && |a| <= |b|
    requires forall i :: 0 <= i < |a| ==> (a[i].Interrupted? <==> b[i].Interrupted?)
    ensures a == b[..|a|]
  {
    hide Step;
    if |a| > 0 {
      var k := |a| - 1;
      LogsAgree(isa, s, a[..k], b);
      ReplayPrefix(isa, s, b, k + 1);
      assert b[..k + 1][..k] == b[..k];
      EventDetermined(isa, Replay(isa, s, a[..k]).value, a[k], b[k]);
    }
  }

  /** Two machines that start alike, whatever their predictors, latencies and stalls, commit the same
      instructions with the same results, in the same order, as far as both get. */
  lemma TimingDoesNotMatter<M>(isa: Isa<M>, sa: seq<State<M>>, xa: seq<Inputs>, sb: seq<State<M>>, xb: seq<Inputs>)
    requires Decodes(isa) && IsRun(isa, sa, xa) && IsRun(isa, sb, xb) && sa[0].arch == sb[0].arch
    requires var a, b := sa[|xa|].log, sb[|xb|].log;
             |a| <= |b| && forall i :: 0 <= i < |a| ==> (a[i].Interrupted? <==> b[i].Interrupted?)
    ensures sa[|xa|].log <= sb[|xb|].log
    ensures sa[|xa|].log == sb[|xb|].log ==> sa[|xa|].arch == sb[|xb|].arch
  {
    hide Inv, Allowed, Next, ShiftAll, Replay, Reset;
    CommitsInProgramOrder(isa, sa, xa, |xa|);
    CommitsInProgramOrder(isa, sb, xb, |xb|);
    LogsAgree(isa, sa[0].arch, sa[|xa|].log, sb[|xb|].log);
  }

  // ---- every cycle of every run ----

  lemma RunStep<M>(isa: Isa<M>, states: seq<State<M>>, inputs: seq<Inputs>, n: nat)
    requires IsRun(isa, states, inputs) && n < |inputs|
    ensures |states| == |inputs| + 1
    ensures Allowed(isa, states[n], inputs[n]) && states[n + 1] == Next(isa, states[n], inputs[n])
  {
    hide Allowed, Next, Reset;
  }

  lemma RunLength<M>(isa: Isa<M>, states: seq<State<M>>, inputs: seq<Inputs>)
    requires IsRun(isa, states, inputs)
    ensures |states| == |inputs| + 1
  {
    hide Allowed, Next, Reset;
  }

  const IDLE := Inputs(false, 0, None, None, None, Issue(None, None, None, None, {}), false, [])

  /** A cycle in which nothing is dispatched, issued or granted is always allowed. */
  lemma IdleIsAllowed<M>(isa: Isa<M>, s: State<M>)
    requires s.Shape()
    ensures Allowed(isa, s, IDLE)
  {
    hide Recover, RAT.FlushTable, Mispredicted;
  }

  /** The same busy registers, under the same tags. */
  ghost predicate SameMap(m: RAT.RegMap, m': RAT.RegMap)
    requires m.Valid() && m'.Valid()
  {
    forall r: Reg :: m.busy[r] == m'.busy[r] && (m.busy[r] ==> m.tags[r] == m'.tags[r])
  }

  lemma ReplayedMap(m: RAT.RegMap, rs: seq<RAT.Rename>)
    requires RAT.Agrees(m, rs)
    ensures m.Valid() && SameMap(m, RAT.RenameAll(rs))
  {
    RAT.AgreesIsReplay(m, rs);
  }

  /** The checkpoint in which a branch in flight saved the map. */
  function CheckpointOf<M>(s: State<M>, i: nat): (m: RAT.RegMap)
    requires s.Shape() && i < |s.w.ops|
    ensures m.Valid()
  {
    s.rat.saved[s.w.ops[i].ckpt]
  }

  lemma RenamingMeans<M>(s: State<M>)
    requires s.Shape() && Renaming(s)
    ensures RAT.Agrees(s.rat.current, Renames(s.w.head, s.w.ops, |s.w.ops|))
    ensures forall i :: 0 <= i < |s.w.ops| && s.w.ops[i].instr.cls == Branch && !s.w.phases[i].Done? ==>
              RAT.Agrees(CheckpointOf(s, i), Renames(s.w.head, s.w.ops, i + 1))
  {
    hide RAT.Agrees;
    forall i | 0 <= i < |s.w.ops| && s.w.ops[i].instr.cls == Branch && !s.w.phases[i].Done?
      ensures RAT.Agrees(CheckpointOf(s, i), Renames(s.w.head, s.w.ops, i + 1))
    {
      assert Unresolved(s.w, i);
    }
  }

  /** In every cycle the map is what renaming the instructions in flight, in order, would give. */
  lemma RenamesAreReplayed<M>(isa: Isa<M>, states: seq<State<M>>, inputs: seq<Inputs>, n: nat)
    requires Decodes(isa) && IsRun(isa, states, inputs) && n < |states|
    ensures states[n].Shape()
    ensures var s := states[n]; SameMap(s.rat.current, RAT.RenameAll(Renames(s.w.head, s.w.ops, |s.w.ops|)))
  {
    hide IsRun, InOrder, Outcomes, Operands, Units, Stores, Histories, Bundled, Renaming, RAT.Agrees, RAT.RenameAll, Renames, SameMap;
    Reachable(isa, states, inputs, n);
    var s := states[n];
    RenamingMeans(s);
    ReplayedMap(s.rat.current, Renames(s.w.head, s.w.ops, |s.w.ops|));
  }

  /** In every cycle the checkpoint of an unresolved branch is what renaming up to and including the branch would
      give, so that a recovery may just copy it: despite all the commits, tag reuse, recoveries and nested
      branches since it was saved. */
  lemma CheckpointsAreReplayed<M>(isa: Isa<M>, states: seq<State<M>>, inputs: seq<Inputs>, n: nat, i: nat)
    requires Decodes(isa) && IsRun(isa, states, inputs) && n < |states|
    requires i < |states[n].w.ops| && i < |states[n].w.phases|
    requires states[n].w.ops[i].instr.cls == Branch && !states[n].w.phases[i].Done?
    ensures states[n].Shape()
    ensures var s := states[n]; SameMap(CheckpointOf(s, i), RAT.RenameAll(Renames(s.w.head, s.w.ops, i + 1)))
  {
    hide IsRun, InOrder, Outcomes, Operands, Units, Stores, Histories, Bundled, Renaming, RAT.Agrees, RAT.RenameAll, Renames, SameMap;
    Reachable(isa, states, inputs, n);
    var s := states[n];
    RenamingMeans(s);
    ReplayedMap(CheckpointOf(s, i), Renames(s.w.head, s.w.ops, i + 1));
  }

  /** In every cycle of every run the machine recovers exactly if a branch has just executed whose direction or next PC, as
      program order has them, is not the predicted one. */
  lemma RecoversExactlyWhen<M>(isa: Isa<M>, states: seq<State<M>>, inputs: seq<Inputs>, n: nat)
    requires Decodes(isa) && IsRun(isa, states, inputs) && n < |states|
    ensures states[n].Shape()
    ensures var s := states[n];
            Recovers(s) <==>
            s.br.Some? && s.w.Live(s.br.value) &&
            var (i, op) := (s.w.IndexOf(s.br.value), s.w.ops[s.w.IndexOf(s.br.value)]);
            op.predTaken != Spec(isa, s.Flow(), s.w.ops, i).taken || op.PredNext(isa) != Spec(isa, s.Flow(), s.w.ops, i).next
  {
    hide IsRun, InOrder, Operands, Stores, Histories, Renaming, FlowAt;
    Reachable(isa, states, inputs, n);
  }

  /** A recovery leaves exactly the map that renaming the surviving instructions in order would give, the
      branch being the last of them. */
  lemma RecoveryRestoresRenames<M>(isa: Isa<M>, states: seq<State<M>>, inputs: seq<Inputs>, n: nat)
    requires Decodes(isa) && IsRun(isa, states, inputs) && n < |states| && states[n].Shape() && Recovers(states[n])
    ensures var (s, s') := (states[n], Recover(isa, states[n]));
            && |s'.w.ops| == s.w.IndexOf(s.br.value) + 1
            && SameMap(s'.rat.current, RAT.RenameAll(Renames(s'.w.head, s'.w.ops, |s'.w.ops|)))
  {
    hide IsRun, Recover, InOrder, Outcomes, Operands, Stores, Histories, RAT.Agrees, RAT.RenameAll, Renames, HoldsCheckpoint, Unresolved,
         SameMap;
    Reachable(isa, states, inputs, n);
    var s := states[n];
    CoreRecover.RecoverKeepsInv(isa, s);
    CoreRecover.RecoverFields(isa, s);
    var s' := Recover(isa, s);
    ReplayedMap(s'.rat.current, Renames(s'.w.head, s'.w.ops, |s'.w.ops|));
  }

  // ---- operands and results ----

  /** In every cycle a missing operand names a live, unfinished, strictly older instruction that writes a
      register: no wake-up has been lost. */
  lemma NoWakeupIsLost<M>(isa: Isa<M>, states: seq<State<M>>, inputs: seq<Inputs>, n: nat, i: nat)
    requires Decodes(isa) && IsRun(isa, states, inputs) && n < |states|
    requires i < |states[n].w.ops| && i < |states[n].w.phases| && states[n].w.phases[i].Waiting?
    ensures states[n].Shape()
    ensures var w := states[n].w;
            forall o :: o in {w.phases[i].op1, w.phases[i].op2} && !o.ready ==>
              w.IndexOf(o.tag) < i && !w.phases[w.IndexOf(o.tag)].Done? && w.ops[w.IndexOf(o.tag)].instr.dst != 0
  {
    hide IsRun, InOrder, Outcomes, Stores, Histories, Renaming, Units;
    Reachable(isa, states, inputs, n);
  }

  /** In every cycle an operand that is ready only by a tag is on a bus, and a ready operand resolves to the
      value program order gives its register. */
  lemma PromisesAreKept<M>(isa: Isa<M>, states: seq<State<M>>, inputs: seq<Inputs>, n: nat, x: Inputs, i: nat)
    requires Decodes(isa) && IsRun(isa, states, inputs) && n < |states|
    requires i < |states[n].w.ops| && i < |states[n].w.phases| && states[n].w.phases[i].Waiting?
    ensures states[n].Shape()
    ensures var s := states[n];
            var (p, op, spec) := (s.w.phases[i], s.w.ops[i], SpecStation(s.w.ops[i].instr.cls));
            && (p.op1.spec ==> BusesOf(s, x).Carries(p.op1.tag))
            && (p.op2.spec ==> BusesOf(s, x).Carries(p.op2.tag))
            && (p.op1.ready ==> Resolve(p.op1, BusesOf(s, x), spec) == FlowAt(isa, s.Flow(), s.w.ops, i).regs[op.instr.src1])
            && (p.op2.ready ==> Resolve(p.op2, BusesOf(s, x), spec) == FlowAt(isa, s.Flow(), s.w.ops, i).regs[op.instr.src2])
  {
    hide IsRun, InOrder, Outcomes, Stores, Histories, Renaming, Units, Writes, FlowAt, BusesOf, Resolve;
    Reachable(isa, states, inputs, n);
    var s := states[n];
    var p, op := s.w.phases[i], s.w.ops[i];
    if p.op1.ready {
      CoreAdvance.IssuedValue(isa, s, x, i, op.instr.src1, p.op1);
    }
    if p.op2.ready {
      CoreAdvance.IssuedValue(isa, s, x, i, op.instr.src2, p.op2);
    }
    if p.op1.spec {
      CoreAdvance.PromisedIsOnBus(s, x, p.op1.tag);
    }
    if p.op2.spec {
      CoreAdvance.PromisedIsOnBus(s, x, p.op2.tag);
    }
  }

  /** In every cycle whatever tag a bus carries is a live, executing instruction's, with the value program order
      gives that instruction. */
  lemma ResultsKeepTheirTags<M>(isa: Isa<M>, states: seq<State<M>>, inputs: seq<Inputs>, n: nat, x: Inputs, t: Tag)
    requires Decodes(isa) && IsRun(isa, states, inputs) && n < |states| && BusesOf(states[n], x).Carries(t)
    ensures states[n].Shape()
    ensures var s := states[n];
            && s.w.Live(t) && s.w.phases[s.w.IndexOf(t)].Executing?
            && BusesOf(s, x).Agree(t, Spec(isa, s.Flow(), s.w.ops, s.w.IndexOf(t)).value)
  {
    hide IsRun, InOrder, Outcomes, Stores, Histories, Renaming, Units, Spec, BusesOf, Operands;
    Reachable(isa, states, inputs, n);
    CoreAdvance.BusesAreRight(isa, states[n], x);
  }

  /** In every cycle the store queue holds exactly the stores that left the memory queue without a fault and have
      not committed, in program order: each one under its own tag behind exactly the older ones, with the
      address and data program order gives it. So the oldest instruction's store is the queue's oldest. */
  lemma StoresAreQueued<M>(isa: Isa<M>, states: seq<State<M>>, inputs: seq<Inputs>, n: nat, i: nat)
    requires Decodes(isa) && IsRun(isa, states, inputs) && n < |states|
    requires i < |states[n].w.ops| && i < |states[n].w.phases| && HasLeft(states[n].w, i)
    ensures states[n].Shape()
    ensures var s := states[n];
            && s.sq == LeftStores(s.w, |s.w.ops|)
            && |LeftStores(s.w, i)| < |s.sq| && s.sq[|LeftStores(s.w, i)|] == QueuedOf(s.w, i)
            && s.w.phases[i].out == Spec(isa, s.Flow(), s.w.ops, i)
            && (i == 0 ==> s.sq[0] == QueuedOf(s.w, i))
  {
    hide IsRun, InOrder, Operands, Histories, Renaming, Units, Spec, MemoryOrder, Bundled;
    Reachable(isa, states, inputs, n);
    LeftStoreAt(states[n].w, i, |states[n].w.ops|);
  }

  /** In every cycle nothing else is in the store queue: each entry is a left store of an instruction in flight, and
      entries further back are younger. */
  lemma QueueIsLeftStores<M>(isa: Isa<M>, states: seq<State<M>>, inputs: seq<Inputs>, n: nat, a: nat)
    requires Decodes(isa) && IsRun(isa, states, inputs) && n < |states| && a < |states[n].sq|
    ensures states[n].Shape()
    ensures var (s, i) := (states[n], states[n].w.IndexOf(states[n].sq[a].tag));
            && i < |s.w.ops| && HasLeft(s.w, i) && s.sq[a] == QueuedOf(s.w, i)
            && forall b :: a < b < |s.sq| ==> i < s.w.IndexOf(s.sq[b].tag)
  {
    hide IsRun, InOrder, Operands, Histories, Renaming, Units, Spec, MemoryOrder, Bundled, Outcomes, LeftStores;
    Reachable(isa, states, inputs, n);
    var s := states[n];
    LeftStoreOf(s.w, |s.w.ops|, a);
    forall b | a < b < |s.sq|
      ensures s.w.IndexOf(s.sq[a].tag) < s.w.IndexOf(s.sq[b].tag)
    {
      LeftStoresIncrease(s.w, |s.w.ops|, a, b);
    }
  }

  /** The speculative history is the last GHR_BITS of: the directions of every retired branch, then of every
      branch in the reorder buffer (real if resolved, else predicted), then of every one in the fetch queue. */
  lemma HistoryIsProgramOrder<M>(isa: Isa<M>, states: seq<State<M>>, inputs: seq<Inputs>, n: nat)
    requires Decodes(isa) && IsRun(isa, states, inputs) && n < |states|
    ensures states[n].Shape()
    ensures var s := states[n];
            var all := NO_HISTORY + RetiredDirections(isa, s.log) + Directions(s.w.ops, s.w.phases, |s.w.ops|) + Predictions(s.queue, |s.queue|);
            s.ghrSpec == all[|all| - GHR_BITS..]
  {
    hide InOrder, Outcomes, Stores, Renaming, Units, Operands, ShiftAll, IsRun, RetiredDirections, Directions, Predictions;
    Reachable(isa, states, inputs, n);
    var s := states[n];
    var a, b, c := RetiredDirections(isa, s.log), Directions(s.w.ops, s.w.phases, |s.w.ops|), Predictions(s.queue, |s.queue|);
    ShiftAllAppend(NO_HISTORY, a, b);
    ShiftAllAppend(NO_HISTORY, a + b, c);
    ShiftAllIsSuffix(NO_HISTORY, a + b + c);
    assert NO_HISTORY + (a + b + c) == NO_HISTORY + a + b + c;
  }
}
