/** The main results about the back end and the data side together, over whole runs. */
module CoreMemoryTheorems {
  import opened Isa
  import opened Dataflow
  import opened Core
  import opened CoreInvariant
  import opened CoreTable
  import opened Bytes
  import opened CoreMemory
  import opened CoreMemorySteps
  import CoreBuffer
  import CoreTheorems
  import D = DataSide
  import DI = DataSideInvariant
  import DR = DataSideReports
  import DT = DataSideTheorems
  import StoreBuffer

  /** The instruction set's memory is a memory of bytes, lowest first: what a load reads, a store changes and an
      alignment fault is are said in numbers and byte addresses. */
  ghost predicate Conforms<M(!new)>(isa: Isa<M>, lay: Layout<M>, lines: nat) {
    LoadsNumbers(isa, lay, lines) && StoresNumbers(isa, lay, lines) && FaultsUnaligned(isa, lay)
  }

  /** The same in byte lanes. */
  ghost predicate HasLanes<M(!new)>(isa: Isa<M>, lay: Layout<M>, lines: nat) {
    LoadsBytes(isa, lay, lines) && StoresBytes(isa, lay, lines) && Aligns(isa, lay)
  }

  lemma ConformsMeans<M(!new)>(isa: Isa<M>, lay: Layout<M>, lines: nat)
    requires Conforms(isa, lay, lines)
    ensures HasLanes(isa, lay, lines)
  {
    hide LoadsNumbers, StoresNumbers, FaultsUnaligned, LoadsBytes, StoresBytes, Aligns;
    NumbersAreBytes(isa, lay, lines);
  }

  // ---- one cycle ----

  lemma PendingStep<P>(p: D.Policy<P>, d: D.State<P>, dx: D.Inputs)
    requires D.Allowed(d, dx) && TwoOperations(d) && PendingIsOld(d)
    ensures TwoOperations(D.Next(p, d, dx)) && PendingIsOld(D.Next(p, d, dx))
  {
    hide D.Next, D.Allowed, DR.Pending, DR.Taken, DR.Reported;
    DR.PendingMoves(p, d, dx);
    DR.StampsGrow(p, d, dx);
  }

  lemma NextParts<P>(p: D.Policy<P>, d: D.State<P>, dx: D.Inputs)
    requires D.Allowed(d, dx)
    ensures var d' := D.Next(p, d, dx);
            && d'.sq == D.QueueNext(d, dx) && d'.ld == D.LoadNext(d, dx) && d'.out == D.OutNext(d, dx) && |d'.ram| == |d.ram|
            && d'.committed == if dx.commit then d.committed + [d.sq[0]] else d.committed
  {
    hide D.QueueNext, D.LoadNext, D.OutNext, D.HeadTaken, D.Drains, D.MemoryNext;
    DI.MemorySize(d);
  }

  lemma OrderedOf<P(!new)>(p: D.Policy<P>, ram0: seq<Words>, d: D.State<P>)
    requires DI.Inv(p, ram0, d)
    ensures DI.Ordered(d)
  {
  }

  /** After a flush nothing is in flight. */
  lemma FlushStep<M, P>(isa: Isa<M>, lay: Layout<M>, ram0: seq<Words>, p: D.Policy<P>, s: State<M>, d: D.State<P>, ids: seq<nat>, next: nat,
                        x: Inputs, dx: D.Inputs, s': State<M>, d': D.State<P>)
    requires Allowed(isa, s, x) && Flushes(s, x) && Joined(lay, ram0, s, d, ids, next) && D.Allowed(d, dx) && dx.flush
    requires s' == Next(isa, s, x) && d' == D.Next(p, d, dx)
    ensures Joined(lay, ram0, s', d', [], next)
  {
    hide Allowed, Flushes, D.Allowed, D.Next, Next, MemoryMatches, QueueMatches, LoadMatches, OutMatches, AllUnderWay, WaitingAreNew, TwoOperations,
         PendingIsOld;
    CoreBuffer.FlushWindow(isa, s, x);
    FlushMemory(isa, s, x);
    PendingStep(p, d, dx);
    FlushData(p, d, dx);
    NothingInFlight(lay, ram0, s'.w, d');
  }

  lemma NothingInFlight<M, P>(lay: Layout<M>, ram0: seq<Words>, w: Window, d: D.State<P>)
    requires w == Window(0, [], []) && d.sq == [] && d.out.None? && (d.ld.Some? ==> d.ld.value.squashed)
    ensures QueueMatches(lay, w, [], [], d.sq) && LoadMatches(lay, ram0, w, [], d) && OutMatches(lay, ram0, w, [], d) && AllUnderWay(w, [], d)
    ensures WaitingAreNew(w, [], d.nextStamp)
  {
  }

  lemma FlushMemory<M>(isa: Isa<M>, s: State<M>, x: Inputs)
    requires Allowed(isa, s, x) && Flushes(s, x)
    ensures Next(isa, s, x).sq == [] && Next(isa, s, x).arch.mem == s.arch.mem
  {
    hide Allowed;
  }

  lemma FlushData<P>(p: D.Policy<P>, d: D.State<P>, dx: D.Inputs)
    requires D.Allowed(d, dx) && dx.flush
    ensures var d' := D.Next(p, d, dx);
            && d'.sq == [] && d'.out.None? && (d'.ld.Some? ==> d'.ld.value.squashed) && d'.nextStamp == d.nextStamp
            && d'.committed == d.committed && |d'.ram| == |d.ram|
  {
    hide D.Stalls, D.HeadTaken, D.Drains, D.LinesNext, D.PolicyNext, D.MemoryNext, D.ReadNext, D.FillNext, D.DroppedNext, D.LoadResult;
    DI.MemorySize(d);
  }

  lemma CommitsWhen<M, P>(isa: Isa<M>, lay: Layout<M>, s: State<M>, d: D.State<P>, ids: seq<nat>, x: Inputs, device: Lanes)
    requires s.Shape() && |ids| == |s.w.ops|
    ensures var dx := DataInputs(isa, lay, s, d, ids, x, device);
            && dx.flush == Flushes(s, x)
            && (!Flushes(s, x) ==> (dx.commit <==> RetireCount(s, x.storeBufferFull) <= |s.w.ops| && CommitsStore(s, RetireCount(s, x.storeBufferFull))))
  {
    hide Flushes, Recovers, RetireCount, CommitsStore, HeadOf, ReportGranted;
  }

  lemma CycleStep<M(!new), P(!new)>(isa: Isa<M>, lay: Layout<M>, ram0: seq<Words>, p: D.Policy<P>, s: State<M>, d: D.State<P>, ids: seq<nat>, next: nat,
                                    x: Inputs, device: Lanes, dx: D.Inputs, s': State<M>, d': D.State<P>, ids': seq<nat>, next': nat)
    requires HasLanes(isa, lay, |ram0|) && DI.Ordered(d) && s.Shape() && Inv(isa, s) && Inv(isa, s') && Allowed(isa, s, x) && !Flushes(s, x)
    requires Joined(lay, ram0, s, d, ids, next) && |ids| == |s.w.ops| && Wired(isa, lay, s, d, ids, x, device)
    requires dx == DataInputs(isa, lay, s, d, ids, x, device) && D.Allowed(d, dx)
    requires s' == Next(isa, s, x) && d' == D.Next(p, d, dx) && ids' == NextIds(s, x, ids, next) && next' == NextFree(s, x, next)
    ensures Joined(lay, ram0, s', d', ids', next')
  {
    hide Inv, Allowed, Flushes, D.Allowed, D.Next, Next, MemoryMatches, QueueMatches, LoadMatches, OutMatches, AllUnderWay, WaitingAreNew, TwoOperations,
         PendingIsOld, NextIds, NextFree, DataInputs, Wired, LoadsBytes, StoresBytes, Aligns, DI.Ordered, Increasing, RetireCount, FrontHalf, CommitsStore,
         Pushed, PushesStore, FrontQueue, D.QueueNext, D.LoadNext, D.OutNext, Recovers, AdvanceOne;
    PendingStep(p, d, dx);
    NextParts(p, d, dx);
    IdsStep(isa, s, x, ids, next);
    NextStampIs(isa, lay, ram0, p, s, d, ids, next, x, device);
    WaitingStep(isa, s, ids, next, x, d.nextStamp, d'.nextStamp);
    QueueStep(isa, lay, ram0, s, d, ids, next, x, device);
    QueueAfter(isa, s, x);
    CommitsWhen(isa, lay, s, d, ids, x, device);
    if dx.commit {
      MemoryStep(isa, lay, ram0, s, d, ids, next, x);
    }
    UnderWayStep(isa, lay, ram0, p, s, d, ids, next, x, device);
    OperationsStep(isa, lay, ram0, p, s, d, ids, next, x, device, dx, s', d', ids');
  }

  lemma OperationsStep<M(!new), P(!new)>(isa: Isa<M>, lay: Layout<M>, ram0: seq<Words>, p: D.Policy<P>, s: State<M>, d: D.State<P>, ids: seq<nat>, next: nat,
                                         x: Inputs, device: Lanes, dx: D.Inputs, s': State<M>, d': D.State<P>, ids': seq<nat>)
    requires HasLanes(isa, lay, |ram0|) && DI.Ordered(d) && s.Shape() && Inv(isa, s) && Allowed(isa, s, x) && !Flushes(s, x)
    requires Joined(lay, ram0, s, d, ids, next) && |ids| == |s.w.ops| && Wired(isa, lay, s, d, ids, x, device)
    requires dx == DataInputs(isa, lay, s, d, ids, x, device) && D.Allowed(d, dx)
    requires s' == Next(isa, s, x) && d' == D.Next(p, d, dx) && ids' == NextIds(s, x, ids, next)
    ensures LoadMatches(lay, ram0, s'.w, ids', d') && OutMatches(lay, ram0, s'.w, ids', d')
  {
    hide Inv, Allowed, Flushes, D.Allowed, D.Next, Next, NextIds, DataInputs, Wired, LoadsBytes, StoresBytes, Aligns, DI.Ordered, Joined, IsLoad, IsResult,
         D.LoadNext, D.OutNext, D.QueueNext;
    NextParts(p, d, dx);
    if d'.ld.Some? && !d'.ld.value.squashed {
      LoadStep(isa, lay, ram0, p, s, d, ids, next, x, device);
    }
    if d'.out.Some? {
      OutStep(isa, lay, ram0, s, d, ids, next, x, device);
    }
  }

  // ---- runs ----

  /** A joint run. Where the data side's demands are met it takes its step; that they always are is a result. */
  datatype Run<!M, !P> = Run(states: seq<State<M>>, inputs: seq<Inputs>, datas: seq<D.State<P>>, dataInputs: seq<D.Inputs>,
                             ids: seq<seq<nat>>, nexts: seq<nat>, devices: seq<Lanes>)

  ghost predicate IsRun<M(!new), P(!new)>(isa: Isa<M>, lay: Layout<M>, p: D.Policy<P>, r: Run<M, P>) {
    && CoreTheorems.IsRun(isa, r.states, r.inputs) && Decodes(isa)
    && |r.states| == |r.inputs| + 1 == |r.datas| == |r.ids| == |r.nexts| && |r.dataInputs| == |r.devices| == |r.inputs|
    && DT.Reset(p, r.datas[0]) && r.ids[0] == [] && r.nexts[0] == r.datas[0].nextStamp
    && Conforms(isa, lay, |r.datas[0].ram|) && MemoryMatches(lay, r.datas[0].ram, r.states[0].arch.mem, [])
    && forall i :: 0 <= i < |r.inputs| ==> IsStep(isa, lay, p, r, i)
  }

  ghost predicate IsStep<M, P>(isa: Isa<M>, lay: Layout<M>, p: D.Policy<P>, r: Run<M, P>, i: nat)
    requires i + 1 < |r.states| && i < |r.inputs| && i + 1 < |r.datas| && i < |r.dataInputs| && i + 1 < |r.ids| && i + 1 < |r.nexts| && i < |r.devices|
  {
    && Wired(isa, lay, r.states[i], r.datas[i], r.ids[i], r.inputs[i], r.devices[i])
    && r.dataInputs[i] == DataInputs(isa, lay, r.states[i], r.datas[i], r.ids[i], r.inputs[i], r.devices[i])
    && (D.Allowed(r.datas[i], r.dataInputs[i]) ==> r.datas[i + 1] == D.Next(p, r.datas[i], r.dataInputs[i]))
    && r.ids[i + 1] == NextIds(r.states[i], r.inputs[i], r.ids[i], r.nexts[i])
    && r.nexts[i + 1] == NextFree(r.states[i], r.inputs[i], r.nexts[i])
  }

  lemma StartsJoined<M, P>(isa: Isa<M>, lay: Layout<M>, s: State<M>, d: D.State<P>)
    requires CoreTheorems.Reset(isa, s) && MemoryMatches(lay, d.ram, s.arch.mem, []) && d.committed == [] && d.sq == [] && d.ld.None? && d.out.None?
    ensures Joined(lay, d.ram, s, d, [], d.nextStamp)
  {
    hide MemoryMatches;
  }

  lemma JoinedStep<M(!new), P(!new)>(isa: Isa<M>, lay: Layout<M>, ram0: seq<Words>, p: D.Policy<P>, s: State<M>, d: D.State<P>, ids: seq<nat>, next: nat,
                                     x: Inputs, device: Lanes, dx: D.Inputs, s': State<M>, ids': seq<nat>, next': nat)
    requires Conforms(isa, lay, |ram0|) && DI.Ordered(d) && s.Shape() && Inv(isa, s) && Inv(isa, s') && Allowed(isa, s, x)
    requires Joined(lay, ram0, s, d, ids, next) && |ids| == |s.w.ops| && Wired(isa, lay, s, d, ids, x, device)
    requires dx == DataInputs(isa, lay, s, d, ids, x, device)
    requires s' == Next(isa, s, x) && ids' == NextIds(s, x, ids, next) && next' == NextFree(s, x, next)
    ensures D.Allowed(d, dx) && Joined(lay, ram0, s', D.Next(p, d, dx), ids', next')
  {
    hide Inv, Allowed, D.Allowed, D.Next, Next, Wired, Joined, DataInputs, DI.Ordered, Flushes, HasLanes, Conforms;
    ConformsMeans(isa, lay, |ram0|);
    DataAllowed(isa, lay, ram0, s, d, ids, next, x, device);
    if Flushes(s, x) {
      CommitsWhen(isa, lay, s, d, ids, x, device);
      FlushStep(isa, lay, ram0, p, s, d, ids, next, x, dx, s', D.Next(p, d, dx));
    } else {
      CycleStep(isa, lay, ram0, p, s, d, ids, next, x, device, dx, s', D.Next(p, d, dx), ids', next');
    }
  }

  lemma CoreOf<M(!new), P(!new)>(isa: Isa<M>, lay: Layout<M>, p: D.Policy<P>, r: Run<M, P>)
    requires IsRun(isa, lay, p, r)
    ensures CoreTheorems.IsRun(isa, r.states, r.inputs) && Decodes(isa)
  {
    hide CoreTheorems.IsRun, Decodes, Conforms, MemoryMatches, IsStep;
  }

  lemma FirstJoined<M(!new), P(!new)>(isa: Isa<M>, lay: Layout<M>, p: D.Policy<P>, r: Run<M, P>)
    requires IsRun(isa, lay, p, r)
    ensures DI.Inv(p, r.datas[0].ram, r.datas[0]) && Joined(lay, r.datas[0].ram, r.states[0], r.datas[0], r.ids[0], r.nexts[0])
  {
    hide DI.Inv, Joined, IsStep, CoreTheorems.IsRun, Decodes, Conforms, MemoryMatches, DT.Reset;
    DT.ResetHolds(p, r.datas[0]);
    ResetParts(p, r.datas[0]);
    FirstState(isa, r.states, r.inputs);
    StartsJoined(isa, lay, r.states[0], r.datas[0]);
  }

  /** In every cycle the two agree. */
  lemma {:induction false} AlwaysJoined<M(!new), P(!new)>(isa: Isa<M>, lay: Layout<M>, p: D.Policy<P>, r: Run<M, P>, n: nat)
    requires IsRun(isa, lay, p, r) && n < |r.states|
    ensures Inv(isa, r.states[n]) && DI.Inv(p, r.datas[0].ram, r.datas[n])
    ensures Joined(lay, r.datas[0].ram, r.states[n], r.datas[n], r.ids[n], r.nexts[n])
  {
    hide IsRun, Inv, DI.Inv, Joined;
    RunSizes(isa, lay, p, r);
    CoreOf(isa, lay, p, r);
    CoreTheorems.Reachable(isa, r.states, r.inputs, n);
    if n == 0 {
      FirstJoined(isa, lay, p, r);
    } else {
      AlwaysJoined(isa, lay, p, r, n - 1);
      CoreTheorems.RunStep(isa, r.states, r.inputs, n - 1);
      RunJoins(isa, lay, p, r, n - 1);
    }
  }

  lemma ResetParts<P(!new)>(p: D.Policy<P>, d: D.State<P>)
    requires DT.Reset(p, d)
    ensures d.committed == [] && d.sq == [] && d.ld.None? && d.out.None?
  {
  }

  lemma FirstState<M>(isa: Isa<M>, states: seq<State<M>>, inputs: seq<Inputs>)
    requires CoreTheorems.IsRun(isa, states, inputs)
    ensures |states| > 0 && CoreTheorems.Reset(isa, states[0])
  {
    hide Allowed, Next, CoreTheorems.Reset;
  }

  lemma RunJoins<M(!new), P(!new)>(isa: Isa<M>, lay: Layout<M>, p: D.Policy<P>, r: Run<M, P>, n: nat)
    requires IsRun(isa, lay, p, r) && n < |r.inputs|
    requires Inv(isa, r.states[n]) && Inv(isa, r.states[n + 1]) && DI.Inv(p, r.datas[0].ram, r.datas[n])
    requires Joined(lay, r.datas[0].ram, r.states[n], r.datas[n], r.ids[n], r.nexts[n])
    ensures D.Allowed(r.datas[n], r.dataInputs[n]) && r.datas[n + 1] == D.Next(p, r.datas[n], r.dataInputs[n])
    ensures DI.Inv(p, r.datas[0].ram, r.datas[n + 1])
    ensures Joined(lay, r.datas[0].ram, r.states[n + 1], r.datas[n + 1], r.ids[n + 1], r.nexts[n + 1])
  {
    hide Inv, DI.Inv, Joined, CoreTheorems.IsRun, Decodes, Conforms, MemoryMatches, DT.Reset, Allowed, Next, D.Allowed, D.Next, Wired, DataInputs,
         NextIds, NextFree, DI.Ordered;
    CoreTheorems.RunStep(isa, r.states, r.inputs, n);
    OrderedOf(p, r.datas[0].ram, r.datas[n]);
    CoreTheorems.InvShape(isa, r.states[n]);
    JoinedSize(lay, r.datas[0].ram, r.states[n], r.datas[n], r.ids[n], r.nexts[n]);
    assert IsStep(isa, lay, p, r, n);
    JoinedStep(isa, lay, r.datas[0].ram, p, r.states[n], r.datas[n], r.ids[n], r.nexts[n], r.inputs[n], r.devices[n], r.dataInputs[n],
               r.states[n + 1], r.ids[n + 1], r.nexts[n + 1]);
    DI.NextKeepsInv(p, r.datas[0].ram, r.datas[n], r.dataInputs[n]);
  }

  /** The data side of a joint run is a run of the data side: the back end keeps every promise it relies on. */
  lemma DataSideRuns<M(!new), P(!new)>(isa: Isa<M>, lay: Layout<M>, p: D.Policy<P>, r: Run<M, P>)
    requires IsRun(isa, lay, p, r)
    ensures DT.IsRun(p, r.datas, r.dataInputs)
  {
    hide Inv, DI.Inv, Joined, CoreTheorems.IsRun, Decodes, Conforms, MemoryMatches, DT.Reset, IsStep, D.Allowed, D.Next;
    forall i | 0 <= i < |r.inputs|
      ensures D.Allowed(r.datas[i], r.dataInputs[i]) && r.datas[i + 1] == D.Next(p, r.datas[i], r.dataInputs[i])
    {
      AlwaysJoined(isa, lay, p, r, i);
      AlwaysJoined(isa, lay, p, r, i + 1);
      RunJoins(isa, lay, p, r, i);
    }
  }

  // ---- results ----

  /** Instruction i is the one whose result the load/store unit offers. */
  ghost predicate Offers<M, P>(r: Run<M, P>, n: nat, i: nat)
    requires n < |r.states| && n < |r.datas| && n < |r.ids| && r.datas[n].out.Some?
  {
    IsOperation(r.states[n].w, r.ids[n], i, r.datas[n].out.value.stamp)
  }

  /** In every cycle of every joint run, the result the load/store unit offers belongs to a live, executing memory
      instruction, and is a fault exactly if that instruction faults in program order. If it is a cacheable load's,
      whichever place answered it, it is the load of that instruction's address, its value is the one program order
      gives that instruction, the sequential machine's, and as a number it is that of the addressed bytes, zero- or
      sign-extended, where the memory word is the initial one after the stores older than the load. */
  lemma LoadsAgree<M(!new), P(!new)>(isa: Isa<M>, lay: Layout<M>, p: D.Policy<P>, r: Run<M, P>, n: nat)
    requires IsRun(isa, lay, p, r) && n < |r.states| && r.datas[n].out.Some?
    ensures r.states[n].Shape()
    ensures var (s, o, ram0) := (r.states[n], r.datas[n].out.value, r.datas[0].ram);
            exists i: nat :: Offers(r, n, i) && i < |s.w.ops| && SameKind(s.w.ops[i], Spec(isa, s.Flow(), s.w.ops, i), o) &&
              (o.LoadDone? && o.load.addr.line < |ram0| ==>
                 var (spec, a, size) := (Spec(isa, s.Flow(), s.w.ops, i), o.load.addr, lay.size(s.w.ops[i].instr));
                 && a == AddrOf(spec.addr) && spec.addr % Width(size) == 0 && FromLanes(o.value) == spec.value
                 && Reads(spec.value, DI.MemoryWord(ram0, o.load.older, a), size, lay.unsigned(s.w.ops[i].instr), a.byte))
  {
    hide IsRun, InOrder, Operands, Stores, Histories, Renaming, Units, Spec, DI.Written, DI.TagsDiffer, DI.Coherent, DI.Refilling, DI.Waiting, DI.Ordered,
         DI.OlderExact, DI.LoadSees, DI.RightValue, QueueMatches, MemoryMatches, WaitingAreNew, AllUnderWay, LoadMatches, Reads, IsLoad, FromLanes;
    RunSizes(isa, lay, p, r);
    AlwaysJoined(isa, lay, p, r, n);
    var s, o, ram0 := r.states[n], r.datas[n].out.value, r.datas[0].ram;
    var i: nat :| IsResult(lay, ram0, s.w, r.ids[n], i, o);
    assert Offers(r, n, i);
    if o.LoadDone? && o.load.addr.line < |ram0| {
      OfferedLoad(lay, ram0, s.w, r.ids[n], i, o.load, o.value);
    }
  }

  lemma OfferedLoad<M>(lay: Layout<M>, ram0: seq<Words>, w: Window, ids: seq<nat>, i: nat, ld: D.Load, value: Lanes)
    requires IsLoad(lay, ram0, w, ids, i, ld) && ld.addr.line < |ram0| && DI.RightValue(ram0, value, ld)
    ensures i < |w.ops| && i < |w.phases| && !w.phases[i].Waiting?
    ensures var (out, size) := (w.phases[i].out, lay.size(w.ops[i].instr));
            && ld.addr == AddrOf(out.addr) && out.addr % Width(size) == 0 && FromLanes(value) == out.value
            && Reads(out.value, DI.MemoryWord(ram0, ld.older, ld.addr), size, lay.unsigned(w.ops[i].instr), ld.addr.byte)
  {
    hide DI.MemoryWord, LoadValue, Misaligned, Reads, Number, AddrOf;
    var a, size := ld.addr, lay.size(w.ops[i].instr);
    AddressParts(w.phases[i].out.addr, a);
    MisalignedMeans(size, a);
    LoadMeans(DI.MemoryWord(ram0, ld.older, a), size, lay.unsigned(w.ops[i].instr), a.byte, FromLanes(value));
  }

  lemma RunSizes<M(!new), P(!new)>(isa: Isa<M>, lay: Layout<M>, p: D.Policy<P>, r: Run<M, P>)
    requires IsRun(isa, lay, p, r)
    ensures |r.states| == |r.inputs| + 1 == |r.datas| == |r.ids| == |r.nexts|
  {
    hide CoreTheorems.IsRun, Decodes, Conforms, MemoryMatches, DT.Reset, IsStep;
  }

  /** In every cycle, RAM followed by the store buffer is the architectural memory, which is the sequential
      machine's (CoreTheorems.CommitsInProgramOrder); with the buffer empty, RAM is. */
  lemma MemoryAgrees<M(!new), P(!new)>(isa: Isa<M>, lay: Layout<M>, p: D.Policy<P>, r: Run<M, P>, n: nat, a: Addr)
    requires IsRun(isa, lay, p, r) && n < |r.states| && n < |r.datas| && a.line < |r.datas[0].ram| && a.line < |r.datas[n].ram|
    ensures lay.word(r.states[n].arch.mem, a) == StoreBuffer.WordAfter(r.datas[n].ram[a.line][a.word], r.datas[n].sb, a)
    ensures r.datas[n].sb == [] ==> lay.word(r.states[n].arch.mem, a) == r.datas[n].ram[a.line][a.word]
  {
    hide IsRun, Inv, StoreBuffer.WordAfter, QueueMatches, WaitingAreNew, AllUnderWay, LoadMatches, OutMatches, DI.TagsDiffer, DI.Coherent, DI.Refilling,
         DI.Waiting, DI.Ordered, DI.OlderExact, DI.LoadSees, DI.OutRight;
    RunSizes(isa, lay, p, r);
    AlwaysJoined(isa, lay, p, r, n);
    BufferedMemory(r.datas[0].ram, r.datas[n], a);
  }

  lemma BufferedMemory<P>(ram0: seq<Words>, d: D.State<P>, a: Addr)
    requires DI.Written(ram0, d) && a.line < |ram0| && a.line < |d.ram|
    ensures DI.MemoryWord(ram0, d.committed, a) == StoreBuffer.WordAfter(d.ram[a.line][a.word], d.sb, a)
    ensures d.sb == [] ==> StoreBuffer.WordAfter(d.ram[a.line][a.word], d.sb, a) == d.ram[a.line][a.word]
  {
    hide StoreBuffer.WordAfter;
    DI.WordAfterSameWord(ram0[a.line][a.word], d.writes, Addr(a.line, a.word, 0), a);
    StoreBuffer.WordAfterAppend(ram0[a.line][a.word], d.writes, d.sb, a);
    if d.sb == [] {
      EmptyAfter(d.ram[a.line][a.word], a);
    }
  }

  lemma EmptyAfter(w: Lanes, a: Addr)
    ensures StoreBuffer.WordAfter(w, [], a) == w
  {
  }

  /** Every executing memory instruction is under way in the unit, so its result will be offered. */
  lemma ExecutingIsUnderWay<M(!new), P(!new)>(isa: Isa<M>, lay: Layout<M>, p: D.Policy<P>, r: Run<M, P>, n: nat, i: nat)
    requires IsRun(isa, lay, p, r) && n < |r.states| && n < |r.ids| && n < |r.datas| && i < |r.ids[n]|
    requires i < |r.states[n].w.ops| && i < |r.states[n].w.phases| && r.states[n].w.ops[i].IsMem() && r.states[n].w.phases[i].Executing?
    ensures r.ids[n][i] in DR.Pending(r.datas[n])
  {
    hide IsRun, Inv, DI.Inv, DR.Pending, QueueMatches, WaitingAreNew, LoadMatches, OutMatches, MemoryMatches;
    AlwaysJoined(isa, lay, p, r, n);
  }
}
