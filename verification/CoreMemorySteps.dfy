/** Why each clock edge of the back end and the data side together keeps them in agreement: the wiring meets the data
    side's demands, the store queues move alike, and each operation under way stays its instruction's. */
module CoreMemorySteps {
  import opened Prelude
  import opened OooPackage
  import opened Isa
  import opened Wakeup
  import opened Dataflow
  import opened Core
  import opened CoreInvariant
  import opened CoreTable
  import opened CoreCycle
  import opened Bytes
  import opened CoreMemory
  import CoreBuffer
  import StoreBuffer
  import ROB = ReorderBuffer
  import D = DataSide
  import RAT = RenameTable
  import DI = DataSideInvariant
  import DR = DataSideReports

  // ---- the back end's side of a cycle ----

  lemma FrontMemory<M>(isa: Isa<M>, s: State<M>, x: Inputs)
    requires Inv(isa, s) && Allowed(isa, s, x) && !Flushes(s, x)
    ensures var s1 := FrontHalf(isa, s, x);
            && s1.arch == s.arch && s1.sq == (if Recovers(s) && s.br.Some? then KeepOlder(s.sq, s.br.value, s.w.head) else s.sq)
  {
    hide Outcomes, Operands, Renaming, Units, Stores, Histories, InOrder, Lookup, Execute, CanAdvance, Mispredicted, FreeCkpt, KeepOlder,
         ReleaseYounger;
  }

  /** The memory instruction that leaves its queue. */
  lemma Issued<M>(isa: Isa<M>, s: State<M>, x: Inputs)
    requires Inv(isa, s) && Allowed(isa, s, x) && !Flushes(s, x) && x.issue.mem.Some?
    ensures var m, s1 := x.issue.mem.value, FrontHalf(isa, s, x);
            && !Recovers(s) && m < |s.w.ops| && m < |s.w.phases| && m < |s1.w.ops| && m < |s1.w.phases|
            && s.w.ops[m].IsMem() && s.w.phases[m].Waiting?
            && s1.w.ops[m] == s.w.ops[m] && s1.w.phases[m] == s.w.phases[m]
            && AdvanceOne(isa, s1, x, m) ==
               Executing(Execute(isa, s.w.ops[m].instr, s.w.ops[m].pc, s.w.phases[m].op1.value, s.w.phases[m].op2.value,
                                 Apply(isa, s.arch.mem, s.sq)))
    ensures forall k :: 0 <= k < x.issue.mem.value && k < |s.w.ops| && k < |s.w.phases| && s.w.ops[k].IsMem() ==> !s.w.phases[k].Waiting?
  {
    hide Inv, Allowed, FrontHalf, Execute, BusesOf, WakesOf, Apply, Mispredicted;
    CoreBuffer.FrontFacts(isa, s, x);
    FrontMemory(isa, s, x);
    if Recovers(s) {
      NoIssueInRecovery(isa, s, x);
    }
    IssuedFacts(s, FrontHalf(isa, s, x), x);
  }

  lemma NoIssueInRecovery<M>(isa: Isa<M>, s: State<M>, x: Inputs)
    requires Allowed(isa, s, x) && !Flushes(s, x) && Recovers(s)
    ensures x.issue.mem.None?
  {
    hide CanAdvance, CanDispatchMany, DispatchMany, Recover, Mispredicted;
  }

  lemma IssuedFacts<M>(s0: State<M>, s: State<M>, x: Inputs)
    requires s.Shape() && CanAdvance(s0, s, x) && x.issue.mem.Some?
    ensures var m := x.issue.mem.value;
            && m < |s0.w.ops| && m < |s.w.ops| && ReadyIn(s, m, {Class.Load, Class.Store}) && OldestMem(s, m) && x.issue.Selects(m)
  {
    assert x.issue.Selects(x.issue.mem.value);
  }

  /** No other memory instruction starts. */
  lemma OnlyIssuedStarts<M>(isa: Isa<M>, s: State<M>, x: Inputs, i: nat)
    requires Inv(isa, s) && Allowed(isa, s, x) && !Flushes(s, x) && i < |FrontHalf(isa, s, x).w.ops| && i < |FrontHalf(isa, s, x).w.phases|
    requires FrontHalf(isa, s, x).w.ops[i].IsMem() && x.issue.mem != Some(i) && AdvanceOne(isa, FrontHalf(isa, s, x), x, i).Executing?
    ensures i < |s.w.ops| && i < |s.w.phases| && s.w.phases[i].Executing? && s.w.ops[i] == FrontHalf(isa, s, x).w.ops[i]
  {
    hide Inv, Allowed, FrontHalf, Execute, BusesOf, WakesOf, Apply, Mispredicted, AllWakes, Resolve;
    CoreBuffer.FrontFacts(isa, s, x);
    var s1 := FrontHalf(isa, s, x);
    SelectedMem(s, s1, x, i);
    if i >= |s.w.ops| {
      NewIsNot(isa, s, x, i);
    }
  }

  lemma NewIsNot<M>(isa: Isa<M>, s: State<M>, x: Inputs, i: nat)
    requires Inv(isa, s) && Allowed(isa, s, x) && !Flushes(s, x) && |s.w.ops| <= i < |FrontHalf(isa, s, x).w.ops|
    ensures i < |FrontHalf(isa, s, x).w.phases| && !FrontHalf(isa, s, x).w.phases[i].Executing?
  {
    hide Inv, Allowed, FrontHalf, CoreBuffer.NewEntry, CoreBuffer.EntryOf;
    CoreBuffer.FrontFacts(isa, s, x);
    CoreBuffer.NewEntryIs(isa, s, x, i - |s.w.ops|);
  }

  lemma SelectedMem<M>(s0: State<M>, s: State<M>, x: Inputs, i: nat)
    requires s.Shape() && CanAdvance(s0, s, x) && i < |s.w.ops| && s.w.ops[i].IsMem()
    ensures x.issue.Selects(i) <==> x.issue.mem == Some(i)
  {
  }

  // ---- places ----

  lemma FrontIdsAre<M>(s: State<M>, x: Inputs, ids: seq<nat>, next: nat)
    requires Increasing(ids, next) && (!Recovers(s) ==> x.dispatch <= 2)
    ensures var front, free := FrontIds(s, x, ids, next), if Recovers(s) then next else next + x.dispatch;
            && Increasing(front, free) && (!Recovers(s) ==> |front| == |ids| + x.dispatch)
            && forall j :: 0 <= j < |front| ==> if j < |ids| then front[j] == ids[j] else front[j] >= next
  {
    hide Recovers;
  }

  lemma LaterIncrease(ids: seq<nat>, next: nat, n: nat)
    requires Increasing(ids, next) && n <= |ids|
    ensures Increasing(ids[n..], next)
  {
  }

  lemma IdsStep<M>(isa: Isa<M>, s: State<M>, x: Inputs, ids: seq<nat>, next: nat)
    requires Inv(isa, s) && Allowed(isa, s, x) && !Flushes(s, x) && |ids| == |s.w.ops| && Increasing(ids, next)
    ensures var n, s1, w', ids' := RetireCount(s, x.storeBufferFull), FrontHalf(isa, s, x), Next(isa, s, x).w, NextIds(s, x, ids, next);
            && n <= |s1.w.ops| && |ids'| == |w'.ops| == |s1.w.ops| - n && Increasing(ids', NextFree(s, x, next)) && next <= NextFree(s, x, next)
            && forall j :: 0 <= j < |ids'| ==> if j + n < |s.w.ops| then ids'[j] == ids[j + n] else ids'[j] >= next
  {
    hide Inv, Allowed, FrontHalf, AdvanceOne, Next, RetireCount, Mispredicted, Increasing;
    CycleWindow(isa, s, x);
    CoreBuffer.FrontFacts(isa, s, x);
    FrontIdsAre(s, x, ids, next);
    LaterIncrease(FrontIds(s, x, ids, next), NextFree(s, x, next), RetireCount(s, x.storeBufferFull));
  }

  // ---- what the data side demands ----

  /** The store that commits is the oldest queued one, and finished. */
  lemma CommittedStore<M>(isa: Isa<M>, s: State<M>, full: bool)
    requires Inv(isa, s) && RetireCount(s, full) <= |s.w.ops| && CommitsStore(s, RetireCount(s, full))
    ensures var k := if s.w.ops[0].instr.cls.Store? then 0 else 1;
            && k < RetireCount(s, full) && k < |s.w.phases| && HasLeft(s.w, k) && |s.sq| > 0 && s.sq[0] == QueuedOf(s.w, k) && !full
            && s.w.phases[k].Done?
  {
    hide InOrder, Outcomes, Operands, Renaming, Units, Histories, MemoryOrder;
    var k := if s.w.ops[0].instr.cls.Store? then 0 else 1;
    LeftStoreAt(s.w, k, |s.w.ops|);
    FirstLeft(s.w, k);
  }

  lemma FirstLeft(w: Window, k: nat)
    requires k <= 1 && k <= |w.ops| && k <= |w.phases| && (k == 1 ==> !w.ops[0].instr.cls.Store?)
    ensures LeftStores(w, k) == []
  {
    assert LeftStores(w, 0) == [];
  }

  lemma RecoveringBranch<M>(isa: Isa<M>, s: State<M>, full: bool)
    requires Inv(isa, s) && Recovers(s)
    ensures s.br.Some? && s.w.IndexOf(s.br.value) < |s.w.ops| && RetireCount(s, full) <= s.w.IndexOf(s.br.value)
  {
    hide InOrder, Outcomes, Operands, Renaming, Units, Histories, Stores, Mispredicted;
  }

  lemma ShapeOf<M>(isa: Isa<M>, s: State<M>)
    requires Inv(isa, s)
    ensures s.Shape()
  {
  }

  lemma CommitIsAllowed<M, P>(isa: Isa<M>, lay: Layout<M>, ram0: seq<Words>, s: State<M>, d: D.State<P>, ids: seq<nat>, next: nat, x: Inputs)
    requires Inv(isa, s) && s.Shape() && Joined(lay, ram0, s, d, ids, next) && x.storeBufferFull == (|d.sb| >= D.STOREBUF_DEPTH)
    requires RetireCount(s, x.storeBufferFull) <= |s.w.ops| && CommitsStore(s, RetireCount(s, x.storeBufferFull))
    ensures |d.sq| > 0 && |s.sq| > 0 && |d.sb| < D.STOREBUF_DEPTH
    ensures d.ld.Some? && !d.ld.value.squashed ==> d.sq[0].stamp < d.ld.value.stamp
    ensures Recovers(s) ==> d.sq[0].stamp < ids[s.w.IndexOf(s.br.value)]
  {
    hide Inv, RetireCount, WaitingAreNew, MemoryMatches, OutMatches, AllUnderWay, TwoOperations, CommitsStore, Recovers, HasLeft;
    var n := RetireCount(s, x.storeBufferFull);
    CommittedStore(isa, s, x.storeBufferFull);
    var k := if s.w.ops[0].instr.cls.Store? then 0 else 1;
    AgeOfTagAt(s.w.head, k);
    assert SameStore(lay, s.w, ids, s.sq[0], d.sq[0]);
    if Recovers(s) {
      RecoveringBranch(isa, s, x.storeBufferFull);
    }
    if d.ld.Some? && !d.ld.value.squashed {
      var i: nat :| IsLoad(lay, ram0, s.w, ids, i, d.ld.value);
      UnfinishedStays(s, x.storeBufferFull, i);
    }
  }

  lemma HeadIsAllowed<M, P>(isa: Isa<M>, lay: Layout<M>, ram0: seq<Words>, s: State<M>, d: D.State<P>, ids: seq<nat>, next: nat, x: Inputs)
    requires Inv(isa, s) && s.Shape() && Allowed(isa, s, x) && !Flushes(s, x) && Joined(lay, ram0, s, d, ids, next)
    ensures HeadOf(isa, lay, s, ids, x).Some? <==> x.issue.mem.Some?
    ensures x.issue.mem.Some? ==> x.issue.mem.value < |ids| && HeadOf(isa, lay, s, ids, x).value.Stamp() == ids[x.issue.mem.value] >= d.nextStamp
  {
    hide Inv, Allowed, FrontHalf, AdvanceOne, Execute, Apply, Flushes, MemoryMatches, OutMatches, AllUnderWay, TwoOperations, QueueMatches, LoadMatches;
    if x.issue.mem.Some? {
      Issued(isa, s, x);
    }
  }

  /** The wiring keeps every promise the data side relies on. */
  lemma DataAllowed<M, P>(isa: Isa<M>, lay: Layout<M>, ram0: seq<Words>, s: State<M>, d: D.State<P>, ids: seq<nat>, next: nat, x: Inputs, device: Lanes)
    requires Inv(isa, s) && s.Shape() && Allowed(isa, s, x) && Joined(lay, ram0, s, d, ids, next) && Wired(isa, lay, s, d, ids, x, device)
    ensures D.Allowed(d, DataInputs(isa, lay, s, d, ids, x, device))
  {
    hide Inv, Allowed, RetireCount, Joined, HeadOf, Flushes, Recovers, CommitsStore, ReportGranted;
    JoinedSize(lay, ram0, s, d, ids, next);
    if !Flushes(s, x) {
      HeadIsAllowed(isa, lay, ram0, s, d, ids, next, x);
      var n := RetireCount(s, x.storeBufferFull);
      if n <= |s.w.ops| && CommitsStore(s, n) {
        CommitIsAllowed(isa, lay, ram0, s, d, ids, next, x);
      }
    }
  }

  lemma JoinedSize<M, P>(lay: Layout<M>, ram0: seq<Words>, s: State<M>, d: D.State<P>, ids: seq<nat>, next: nat)
    requires Joined(lay, ram0, s, d, ids, next)
    ensures |ids| == |s.w.ops|
  {
  }

  // ---- places of what waits ----

  lemma NextStampIs<M, P>(isa: Isa<M>, lay: Layout<M>, ram0: seq<Words>, p: D.Policy<P>, s: State<M>, d: D.State<P>, ids: seq<nat>, next: nat,
                          x: Inputs, device: Lanes)
    requires Inv(isa, s) && s.Shape() && Allowed(isa, s, x) && Joined(lay, ram0, s, d, ids, next) && Wired(isa, lay, s, d, ids, x, device)
    requires D.Allowed(d, DataInputs(isa, lay, s, d, ids, x, device))
    ensures D.Next(p, d, DataInputs(isa, lay, s, d, ids, x, device)).nextStamp ==
            if !Flushes(s, x) && x.issue.mem.Some? && x.issue.mem.value < |ids| then ids[x.issue.mem.value] + 1 else d.nextStamp
  {
    hide Inv, Allowed, RetireCount, Joined, HeadOf, Flushes, Recovers, CommitsStore, ReportGranted, D.QueueNext, D.LoadNext, D.OutNext,
         D.LinesNext, D.PolicyNext, D.FillNext, D.MemoryNext, D.ReadNext, D.DroppedNext, D.Drains;
    if !Flushes(s, x) {
      HeadIsAllowed(isa, lay, ram0, s, d, ids, next, x);
    }
  }

  lemma WaitingStep<M>(isa: Isa<M>, s: State<M>, ids: seq<nat>, next: nat, x: Inputs, stamp: nat, stamp': nat)
    requires Inv(isa, s) && s.Shape() && Allowed(isa, s, x) && !Flushes(s, x) && |ids| == |s.w.ops| && Increasing(ids, next)
    requires WaitingAreNew(s.w, ids, stamp) && stamp <= next
    requires stamp' == if x.issue.mem.Some? && x.issue.mem.value < |ids| then ids[x.issue.mem.value] + 1 else stamp
    ensures stamp' <= next && WaitingAreNew(Next(isa, s, x).w, NextIds(s, x, ids, next), stamp')
  {
    hide Inv, Allowed, FrontHalf, AdvanceOne, Next, RetireCount, Mispredicted, NextIds, Execute, Apply;
    CycleWindow(isa, s, x);
    CoreBuffer.FrontFacts(isa, s, x);
    IdsStep(isa, s, x, ids, next);
    if x.issue.mem.Some? {
      Issued(isa, s, x);
    }
    var n, s1, w', ids' := RetireCount(s, x.storeBufferFull), FrontHalf(isa, s, x), Next(isa, s, x).w, NextIds(s, x, ids, next);
    forall j | 0 <= j < |w'.ops| && j < |w'.phases| && j < |ids'| && w'.ops[j].IsMem() && w'.phases[j].Waiting?
      ensures ids'[j] >= stamp'
    {
      var i := j + n;
      assert w'.phases[i - n] == AdvanceOne(isa, s1, x, i);
      WaitedBefore(isa, s1, x, i);
      if i < |s.w.ops| {
        assert ids[i] >= stamp;
      }
    }
  }

  lemma WaitedBefore<M>(isa: Isa<M>, s: State<M>, x: Inputs, i: nat)
    requires s.Shape() && i < |s.w.ops| && AdvanceOne(isa, s, x, i).Waiting?
    ensures s.w.phases[i].Waiting? && !x.issue.Selects(i) && x.issue.mem != Some(i)
  {
    hide Execute, BusesOf, WakesOf, AllWakes, Resolve;
  }

  // ---- the store queues ----

  predicate PushesStore<M>(isa: Isa<M>, s: State<M>, x: Inputs) {
    x.issue.mem.Some? && x.issue.mem.value < |s.w.ops| && x.issue.mem.value < |s.w.phases| && s.w.phases[x.issue.mem.value].Waiting? &&
    s.w.ops[x.issue.mem.value].instr.cls.Store? &&
    !isa.misaligned(s.w.ops[x.issue.mem.value].instr, isa.address(s.w.ops[x.issue.mem.value].instr, s.w.phases[x.issue.mem.value].op1.value))
  }

  function Pushed<M>(isa: Isa<M>, s: State<M>, x: Inputs): seq<QueuedStore> {
    if PushesStore(isa, s, x) then
      var m := x.issue.mem.value;
      [QueuedStore(s.w.TagOf(m), s.w.ops[m].instr, isa.address(s.w.ops[m].instr, s.w.phases[m].op1.value), s.w.phases[m].op2.value)]
    else []
  }

  function FrontQueue<M>(s: State<M>): seq<QueuedStore> {
    if Recovers(s) && s.br.Some? then KeepOlder(s.sq, s.br.value, s.w.head) else s.sq
  }

  lemma AdvanceQueue<M>(isa: Isa<M>, s: State<M>, x: Inputs)
    requires Inv(isa, s) && Allowed(isa, s, x) && !Flushes(s, x)
    ensures var s2 := Advance(isa, FrontHalf(isa, s, x), x); s2.sq == FrontQueue(s) + Pushed(isa, s, x) && s2.arch == s.arch
  {
    hide Inv, Allowed, FrontHalf, AdvanceOne, AdvanceAll, Recovers, KeepOlder, Apply;
    FrontMemory(isa, s, x);
    var s1 := FrontHalf(isa, s, x);
    assert FrontQueue(s) + [] == FrontQueue(s);
    if x.issue.mem.Some? {
      Issued(isa, s, x);
      CoreBuffer.FrontFacts(isa, s, x);
    }
  }

  /** Retiring takes at most one store off the queue, into memory. */
  lemma RetireQueue<M>(isa: Isa<M>, s: State<M>, n: nat)
    requires s.Shape() && n <= 2 && n <= |s.w.ops| && forall i :: 0 <= i < n ==> Completed(s, i)
    requires n == 2 ==> !(s.w.ops[0].instr.cls.Store? && s.w.ops[1].instr.cls.Store?)
    requires CommitsStore(s, n) ==> |s.sq| > 0
    ensures var s' := RetireMany(isa, s, n);
            && s'.sq == (if CommitsStore(s, n) then s.sq[1..] else s.sq)
            && s'.arch.mem == if CommitsStore(s, n) then isa.store(s.arch.mem, s.sq[0].instr, s.sq[0].addr, s.sq[0].data) else s.arch.mem
  {
    hide WriteReg, RAT.ClearAll;
  }

  lemma OneStore<M>(s: State<M>, full: bool)
    ensures RetireCount(s, full) == 2 ==> |s.w.ops| >= 2 && !(s.w.ops[0].instr.cls.Store? && s.w.ops[1].instr.cls.Store?)
  {
  }

  lemma {:induction false} KeepOlderPrefix(sq: seq<QueuedStore>, branch: Tag, head: Tag)
    ensures KeepOlder(sq, branch, head) <= sq
    ensures |sq| > 0 && !Younger(sq[0].tag, branch, head) ==> |KeepOlder(sq, branch, head)| > 0
  {
    hide Younger;
    if |sq| > 0 && Younger(sq[|sq| - 1].tag, branch, head) {
      KeepOlderPrefix(sq[..|sq| - 1], branch, head);
    }
  }

  /** The store queue and memory after a cycle. */
  lemma QueueAfter<M>(isa: Isa<M>, s: State<M>, x: Inputs)
    requires Inv(isa, s) && Allowed(isa, s, x) && !Flushes(s, x)
    ensures var (n, q, s') := (RetireCount(s, x.storeBufferFull), FrontQueue(s) + Pushed(isa, s, x), Next(isa, s, x));
            && n <= |s.w.ops| && (CommitsStore(s, n) ==> |FrontQueue(s)| > 0 && |s.sq| > 0 && FrontQueue(s)[0] == s.sq[0])
            && s'.sq == (if CommitsStore(s, n) then q[1..] else q)
            && s'.arch.mem == if CommitsStore(s, n) then isa.store(s.arch.mem, s.sq[0].instr, s.sq[0].addr, s.sq[0].data) else s.arch.mem
  {
    hide Inv, Allowed, FrontHalf, Advance, RetireCount, RetireMany, Fetch, Pushed, KeepOlder, CanAdvance, HasLeft, Mispredicted;
    var n := RetireCount(s, x.storeBufferFull);
    var s2 := Advance(isa, FrontHalf(isa, s, x), x);
    ShapeOf(isa, s);
    CoreBuffer.FrontFacts(isa, s, x);
    CoreBuffer.FrontKeepsCompleted(isa, s, x);
    FrontKeepsRetiring(isa, s, x);
    OneStore(s, x.storeBufferFull);
    AdvanceQueue(isa, s, x);
    if CommitsStore(s, n) {
      CommittedStore(isa, s, x.storeBufferFull);
      OldestIsKept(isa, s, x.storeBufferFull);
    }
    RetireQueue(isa, s2, n);
    FetchMemory(isa, RetireMany(isa, s2, n), x.fetch);
  }

  lemma FetchMemory<M>(isa: Isa<M>, s: State<M>, gs: seq<Guess>)
    requires s.Shape()
    ensures Fetch(isa, s, gs).sq == s.sq && Fetch(isa, s, gs).arch == s.arch
  {
    hide MakePacket, LetsFollow, Shifted;
  }

  lemma FrontKeepsRetiring<M>(isa: Isa<M>, s: State<M>, x: Inputs)
    requires Inv(isa, s) && Allowed(isa, s, x) && !Flushes(s, x)
    ensures var n, s2 := RetireCount(s, x.storeBufferFull), Advance(isa, FrontHalf(isa, s, x), x);
            n <= |s.w.ops| && n <= |s2.w.ops| && forall i :: 0 <= i < n ==> s2.w.ops[i] == s.w.ops[i]
  {
    hide Inv, Allowed, FrontHalf, AdvanceAll, Enqueue, Mispredicted, CanAdvance;
    CoreBuffer.FrontFacts(isa, s, x);
    CoreBuffer.FrontKeepsCompleted(isa, s, x);
  }

  lemma OldestIsKept<M>(isa: Isa<M>, s: State<M>, full: bool)
    requires Inv(isa, s) && RetireCount(s, full) <= |s.w.ops| && CommitsStore(s, RetireCount(s, full)) && |s.sq| > 0
    ensures |FrontQueue(s)| > 0 && FrontQueue(s)[0] == s.sq[0]
  {
    hide Inv, RetireCount, KeepOlder, Recovers, HasLeft;
    CommittedStore(isa, s, full);
    ShapeOf(isa, s);
    if Recovers(s) && s.br.Some? {
      RecoveringBranch(isa, s, full);
      AgeOfTagAt(s.w.head, if s.w.ops[0].instr.cls.Store? then 0 else 1);
      KeepOlderPrefix(s.sq, s.br.value, s.w.head);
    }
  }

  /** A recovery cuts both queues at the same place. */
  lemma {:induction false} CutMatches<M>(lay: Layout<M>, w: Window, ids: seq<nat>, next: nat, cs: seq<QueuedStore>, qs: seq<D.Queued>, b: nat)
    requires QueueMatches(lay, w, ids, cs, qs) && Increasing(ids, next) && b < |ids| <= ROB_SIZE
    ensures QueueMatches(lay, w, ids, KeepOlder(cs, w.TagOf(b), w.head), D.KeepStamps(qs, ids[b]))
  {
    AgeOfTagAt(w.head, b);
    if |cs| > 0 {
      assert SameStore(lay, w, ids, cs[|cs| - 1], qs[|qs| - 1]);
      if Younger(cs[|cs| - 1].tag, w.TagOf(b), w.head) {
        CutMatches(lay, w, ids, next, cs[..|cs| - 1], qs[..|qs| - 1], b);
      }
    }
  }

  lemma SnocMatches<M>(lay: Layout<M>, w: Window, ids: seq<nat>, cs: seq<QueuedStore>, qs: seq<D.Queued>, c: QueuedStore, q: D.Queued)
    requires QueueMatches(lay, w, ids, cs, qs) && SameStore(lay, w, ids, c, q)
    ensures QueueMatches(lay, w, ids, cs + [c], qs + [q])
  {
    hide SameStore;
  }

  lemma DropMatches<M>(lay: Layout<M>, w: Window, ids: seq<nat>, cs: seq<QueuedStore>, qs: seq<D.Queued>)
    requires QueueMatches(lay, w, ids, cs, qs) && |cs| > 0
    ensures QueueMatches(lay, w, ids, cs[1..], qs[1..])
  {
    hide SameStore;
  }

  /** The same entries in the window after the cycle, in which every place has moved by n. */
  lemma MovedMatches<M>(lay: Layout<M>, w: Window, w': Window, ids: seq<nat>, ids': seq<nat>, n: nat, cs: seq<QueuedStore>, qs: seq<D.Queued>)
    requires QueueMatches(lay, w, ids, cs, qs) && |ids| <= ROB_SIZE && w'.head == TagAt(w.head, n)
    requires forall j :: 0 <= j < |ids'| && j + n < |ids| ==> ids'[j] == ids[j + n]
    requires forall k :: 0 <= k < |cs| ==> w'.IndexOf(cs[k].tag) < |ids'| && w.IndexOf(cs[k].tag) >= n
    ensures QueueMatches(lay, w', ids', cs, qs)
  {
    forall k | 0 <= k < |cs|
      ensures SameStore(lay, w', ids', cs[k], qs[k])
    {
      assert SameStore(lay, w, ids, cs[k], qs[k]);
      AgeAfterRetire(cs[k].tag, w.head, n);
    }
  }

  lemma TakenHasHead<P>(d: D.State<P>, dx: D.Inputs)
    ensures D.HeadTaken(d, dx) ==> dx.head.Some? && dx.squash.None?
  {
  }

  lemma JoinsAStore<P>(d: D.State<P>, dx: D.Inputs)
    ensures DI.Joins(d, dx) ==> dx.head.Some? && dx.head.value.HeadStore?
  {
  }

  lemma JoinsIs<M(!new), P>(isa: Isa<M>, lay: Layout<M>, ram0: seq<Words>, s: State<M>, d: D.State<P>, ids: seq<nat>, next: nat, x: Inputs, device: Lanes)
    requires Aligns(isa, lay) && Inv(isa, s) && s.Shape() && Allowed(isa, s, x) && !Flushes(s, x)
    requires Joined(lay, ram0, s, d, ids, next) && Wired(isa, lay, s, d, ids, x, device)
    ensures var dx := DataInputs(isa, lay, s, d, ids, x, device);
            && (DI.Joins(d, dx) <==> PushesStore(isa, s, x))
            && (PushesStore(isa, s, x) ==> SameStore(lay, s.w, ids, Pushed(isa, s, x)[0], dx.head.value.q))
  {
    hide Inv, Allowed, RetireCount, Joined, Recovers, CommitsStore, ReportGranted, D.HeadTaken, Flushes, FrontHalf, AdvanceOne, Execute, Apply,
         Misaligned;
    JoinedSize(lay, ram0, s, d, ids, next);
    HeadIsAllowed(isa, lay, ram0, s, d, ids, next, x);
    TakenHasHead(d, DataInputs(isa, lay, s, d, ids, x, device));
    if x.issue.mem.Some? {
      Issued(isa, s, x);
      AgeOfTagAt(s.w.head, x.issue.mem.value);
    }
  }

  /** Every queued store is of an instruction in flight. */
  lemma QueueTags<M>(isa: Isa<M>, s: State<M>)
    requires Inv(isa, s)
    ensures forall k :: 0 <= k < |s.sq| ==> s.w.IndexOf(s.sq[k].tag) < |s.w.ops|
  {
    hide InOrder, Outcomes, Operands, Renaming, Units, Histories, MemoryOrder, LeftStores, HasLeft;
    forall k | 0 <= k < |s.sq|
      ensures s.w.IndexOf(s.sq[k].tag) < |s.w.ops|
    {
      LeftStoreOf(s.w, |s.w.ops|, k);
    }
  }

  lemma FrontMatches<M, P>(isa: Isa<M>, lay: Layout<M>, ram0: seq<Words>, s: State<M>, d: D.State<P>, ids: seq<nat>, next: nat, x: Inputs, device: Lanes)
    requires Inv(isa, s) && s.Shape() && !Flushes(s, x) && Joined(lay, ram0, s, d, ids, next)
    ensures QueueMatches(lay, s.w, ids, FrontQueue(s), DI.Kept(d, DataInputs(isa, lay, s, d, ids, x, device)))
  {
    hide Inv, RetireCount, WaitingAreNew, MemoryMatches, OutMatches, LoadMatches, AllUnderWay, TwoOperations, CommitsStore, Recovers, KeepOlder,
         D.KeepStamps, QueueMatches, HeadOf, ReportGranted, Flushes;
    if Recovers(s) {
      RecoveringBranch(isa, s, x.storeBufferFull);
      var b := s.w.IndexOf(s.br.value);
      TagAtAge(s.br.value, s.w.head);
      CutMatches(lay, s.w, ids, next, s.sq, d.sq, b);
    }
  }

  lemma QueueStep<M(!new), P>(isa: Isa<M>, lay: Layout<M>, ram0: seq<Words>, s: State<M>, d: D.State<P>, ids: seq<nat>, next: nat, x: Inputs, device: Lanes)
    requires Aligns(isa, lay) && Inv(isa, s) && s.Shape() && Allowed(isa, s, x) && !Flushes(s, x) && Inv(isa, Next(isa, s, x))
    requires Joined(lay, ram0, s, d, ids, next) && Wired(isa, lay, s, d, ids, x, device)
    requires D.Allowed(d, DataInputs(isa, lay, s, d, ids, x, device))
    ensures var s' := Next(isa, s, x);
            QueueMatches(lay, s'.w, NextIds(s, x, ids, next), s'.sq, D.QueueNext(d, DataInputs(isa, lay, s, d, ids, x, device)))
  {
    hide Inv, Allowed, Next, RetireCount, Joined, Wired, CommitsStore, FrontQueue, Pushed, QueueMatches, DI.Kept, DI.Joins, D.QueueNext, D.Allowed,
         PushesStore, FrontHalf, HeadOf, ReportGranted, Recovers, SameStore, NextIds, AdvanceOne, Flushes;
    JoinedSize(lay, ram0, s, d, ids, next);
    var dx := DataInputs(isa, lay, s, d, ids, x, device);
    var n, s' := RetireCount(s, x.storeBufferFull), Next(isa, s, x);
    FrontMatches(isa, lay, ram0, s, d, ids, next, x, device);
    JoinsIs(isa, lay, ram0, s, d, ids, next, x, device);
    QueueAfter(isa, s, x);
    DI.QueueShape(d, dx);
    JoinsAStore(d, dx);
    var cs, qs := FrontQueue(s), DI.Kept(d, dx);
    PushedIs(isa, s, x);
    KeptSize(lay, s.w, ids, cs, qs);
    if CommitsStore(s, n) {
      DropMatches(lay, s.w, ids, cs, qs);
      assert (cs + Pushed(isa, s, x))[1..] == cs[1..] + Pushed(isa, s, x);
      cs, qs := cs[1..], qs[1..];
    }
    if PushesStore(isa, s, x) {
      SnocMatches(lay, s.w, ids, cs, qs, Pushed(isa, s, x)[0], dx.head.value.q);
      cs, qs := cs + Pushed(isa, s, x), qs + [dx.head.value.q];
    } else {
      assert cs + [] == cs && qs + [] == qs;
    }
    assert s'.sq == cs && D.QueueNext(d, dx) == qs;
    MoveQueue(isa, lay, ram0, s, d, ids, next, x, qs);
  }

  lemma PushedIs<M>(isa: Isa<M>, s: State<M>, x: Inputs)
    ensures if PushesStore(isa, s, x) then |Pushed(isa, s, x)| == 1 && Pushed(isa, s, x) == [Pushed(isa, s, x)[0]] else Pushed(isa, s, x) == []
  {
  }

  lemma KeptSize<M>(lay: Layout<M>, w: Window, ids: seq<nat>, cs: seq<QueuedStore>, qs: seq<D.Queued>)
    requires QueueMatches(lay, w, ids, cs, qs)
    ensures |cs| == |qs|
  {
  }

  lemma MoveQueue<M, P>(isa: Isa<M>, lay: Layout<M>, ram0: seq<Words>, s: State<M>, d: D.State<P>, ids: seq<nat>, next: nat, x: Inputs, qs: seq<D.Queued>)
    requires Inv(isa, s) && s.Shape() && Allowed(isa, s, x) && !Flushes(s, x) && Inv(isa, Next(isa, s, x)) && Joined(lay, ram0, s, d, ids, next)
    requires QueueMatches(lay, s.w, ids, Next(isa, s, x).sq, qs)
    ensures QueueMatches(lay, Next(isa, s, x).w, NextIds(s, x, ids, next), Next(isa, s, x).sq, qs)
  {
    hide Inv, Allowed, Next, RetireCount, FrontHalf, NextIds, AdvanceOne, WaitingAreNew, MemoryMatches, OutMatches, LoadMatches, AllUnderWay,
         QueueMatches, PendingIsOld;
    var n, s' := RetireCount(s, x.storeBufferFull), Next(isa, s, x);
    CycleWindow(isa, s, x);
    IdsStep(isa, s, x, ids, next);
    QueueTags(isa, s');
    forall k | 0 <= k < |s'.sq|
      ensures s.w.IndexOf(s'.sq[k].tag) >= n
    {
      ROB.AgeAfterCommits(s'.sq[k].tag, s.w.head, n);
    }
    MovedMatches(lay, s.w, s'.w, ids, NextIds(s, x, ids, next), n, s'.sq, qs);
  }

  // ---- memory ----

  lemma MemoryStep<M(!new), P>(isa: Isa<M>, lay: Layout<M>, ram0: seq<Words>, s: State<M>, d: D.State<P>, ids: seq<nat>, next: nat, x: Inputs)
    requires StoresBytes(isa, lay, |ram0|) && DI.Ordered(d) && Joined(lay, ram0, s, d, ids, next) && |s.sq| > 0
    ensures |d.sq| > 0
    ensures MemoryMatches(lay, ram0, isa.store(s.arch.mem, s.sq[0].instr, s.sq[0].addr, s.sq[0].data), d.committed + [d.sq[0]])
  {
    hide WaitingAreNew, OutMatches, LoadMatches, AllUnderWay, PendingIsOld, Increasing, DI.MemoryWord, Merge, ByteMask, Misaligned;
    var c, q := s.sq[0], d.sq[0];
    assert SameStore(lay, s.w, ids, c, q);
    assert q in d.committed + d.sq;
    forall a: Addr | a.line < |ram0|
      ensures lay.word(isa.store(s.arch.mem, c.instr, c.addr, c.data), a) == DI.MemoryWord(ram0, d.committed + [q], a)
    {
      WordAfterStore(ram0, d.committed, q, a);
    }
  }

  lemma WordAfterStore(ram0: seq<Words>, qs: seq<D.Queued>, q: D.Queued, a: Addr)
    requires a.line < |ram0|
    ensures DI.MemoryWord(ram0, qs + [q], a) ==
            if q.addr.SameWord(a) then Merge(DI.MemoryWord(ram0, qs, a), q.data, ByteMask(q.size, q.addr.byte)) else DI.MemoryWord(ram0, qs, a)
  {
    hide Merge, ByteMask;
    assert (qs + [q])[..|qs|] == qs;
    StoreBuffer.WordAfterSnoc(ram0[a.line][a.word], D.AsStores(qs), q.AsStore(), a);
  }

  /** A load that reads memory through the queue reads what the older stores leave. */
  lemma {:induction false} ApplyMatches<M(!new)>(isa: Isa<M>, lay: Layout<M>, ram0: seq<Words>, w: Window, ids: seq<nat>, mem: M, committed: seq<D.Queued>,
                                                 cs: seq<QueuedStore>, qs: seq<D.Queued>, a: Addr)
    requires StoresBytes(isa, lay, |ram0|) && a.line < |ram0| && MemoryMatches(lay, ram0, mem, committed) && QueueMatches(lay, w, ids, cs, qs)
    requires forall k :: 0 <= k < |qs| ==> !Misaligned(qs[k].size, qs[k].addr.byte)
    ensures lay.word(Apply(isa, mem, cs), a) == DI.MemoryWord(ram0, committed + qs, a)
  {
    hide DI.MemoryWord, Merge, ByteMask, Misaligned;
    if |cs| == 0 {
      assert committed + qs == committed;
    } else {
      var k := |cs| - 1;
      ApplyMatches(isa, lay, ram0, w, ids, mem, committed, cs[..k], qs[..k], a);
      assert SameStore(lay, w, ids, cs[k], qs[k]);
      assert committed + qs == committed + qs[..k] + [qs[k]];
      WordAfterStore(ram0, committed + qs[..k], qs[k], a);
    }
  }

  // ---- operations under way ----

  /** The window and the places after the cycle, in which n instructions commit. */
  ghost predicate IsAfter<M>(isa: Isa<M>, s: State<M>, ids: seq<nat>, next: nat, x: Inputs, n: nat, w': Window, ids': seq<nat>) {
    Allowed(isa, s, x) && n == RetireCount(s, x.storeBufferFull) && w' == Next(isa, s, x).w && ids' == NextIds(s, x, ids, next)
  }

  /** Instruction i, with its own place, is n entries further up and in phase p. */
  ghost predicate MovedTo(w: Window, w': Window, ids: seq<nat>, ids': seq<nat>, n: nat, i: nat, p: Phase) {
    && n <= i < |ids| && i < |w.ops| && IsOperation(w', ids', i - n, ids[i]) && w'.ops[i - n] == w.ops[i] && w'.phases[i - n] == p
  }

  lemma BusIsReport<M, P>(isa: Isa<M>, lay: Layout<M>, s: State<M>, d: D.State<P>, ids: seq<nat>, x: Inputs, device: Lanes, i: nat)
    requires s.Shape() && |ids| == |s.w.ops| && Wired(isa, lay, s, d, ids, x, device) && i < |ids| && s.w.ops[i].IsMem()
    requires OnBus(x, s.w.TagOf(i))
    ensures d.out.Some? && d.out.value.stamp == ids[i] && ReportGranted(s, d, ids, x)
  {
    hide DataInputs, OnBus;
    AgeOfTagAt(s.w.head, i);
  }

  /** An operation that is neither reported nor squashed stays its instruction's. */
  lemma OperationStays<M, P>(isa: Isa<M>, lay: Layout<M>, s: State<M>, d: D.State<P>, ids: seq<nat>, next: nat, x: Inputs, device: Lanes, i: nat,
                             n: nat, w': Window, ids': seq<nat>)
    requires IsAfter(isa, s, ids, next, x, n, w', ids')
    requires Inv(isa, s) && s.Shape() && Allowed(isa, s, x) && !Flushes(s, x) && |ids| == |s.w.ops| && Increasing(ids, next)
    requires Wired(isa, lay, s, d, ids, x, device) && i < |ids| && IsOperation(s.w, ids, i, ids[i])
    requires d.out.Some? && d.out.value.stamp == ids[i] ==> !ReportGranted(s, d, ids, x)
    requires Recovers(s) && s.br.Some? && s.w.IndexOf(s.br.value) < |ids| ==> ids[i] <= ids[s.w.IndexOf(s.br.value)]
    ensures MovedTo(s.w, w', ids, ids', n, i, s.w.phases[i])
  {
    hide Inv, Allowed, Next, RetireCount, FrontHalf, NextIds, AdvanceOne, DataInputs, Recovers, OnBus;
    if OnBus(x, s.w.TagOf(i)) {
      BusIsReport(isa, lay, s, d, ids, x, device, i);
    }
    if Recovers(s) {
      RecoveringBranch(isa, s, x.storeBufferFull);
    }
    SharedMoves(isa, s, x, i);
    IdsStep(isa, s, x, ids, next);
    CycleWindow(isa, s, x);
  }

  /** The operation taken from the memory queue becomes its instruction's. */
  lemma OperationStarts<M>(isa: Isa<M>, s: State<M>, ids: seq<nat>, next: nat, x: Inputs, n: nat, w': Window, ids': seq<nat>)
    requires IsAfter(isa, s, ids, next, x, n, w', ids')
    requires Inv(isa, s) && s.Shape() && Allowed(isa, s, x) && !Flushes(s, x) && |ids| == |s.w.ops| && Increasing(ids, next) && x.issue.mem.Some?
    ensures var m := x.issue.mem.value;
            && m < |ids| && m < |s.w.ops| && m < |s.w.phases| && s.w.phases[m].Waiting?
            && MovedTo(s.w, w', ids, ids', n, m,
                       Executing(Execute(isa, s.w.ops[m].instr, s.w.ops[m].pc, s.w.phases[m].op1.value, s.w.phases[m].op2.value,
                                         Apply(isa, s.arch.mem, s.sq))))
  {
    hide Inv, Allowed, Next, RetireCount, FrontHalf, NextIds, AdvanceOne, Execute, Apply;
    Issued(isa, s, x);
    UnfinishedStays(s, x.storeBufferFull, x.issue.mem.value);
    CycleWindow(isa, s, x);
    IdsStep(isa, s, x, ids, next);
  }

  /** And a load's value is what the memory after its older stores holds. */
  lemma LoadStarts<M(!new), P>(isa: Isa<M>, lay: Layout<M>, ram0: seq<Words>, s: State<M>, d: D.State<P>, ids: seq<nat>, next: nat, x: Inputs)
    requires LoadsBytes(isa, lay, |ram0|) && StoresBytes(isa, lay, |ram0|) && Aligns(isa, lay) && DI.Ordered(d)
    requires Inv(isa, s) && s.Shape() && Allowed(isa, s, x) && !Flushes(s, x) && Joined(lay, ram0, s, d, ids, next)
    requires HeadOf(isa, lay, s, ids, x).Some? && HeadOf(isa, lay, s, ids, x).value.HeadLoad? && !HeadOf(isa, lay, s, ids, x).value.IsMisaligned()
    ensures x.issue.mem.Some? && RetireCount(s, x.storeBufferFull) <= x.issue.mem.value
    ensures IsLoad(lay, ram0, Next(isa, s, x).w, NextIds(s, x, ids, next), x.issue.mem.value - RetireCount(s, x.storeBufferFull),
                   D.IssuedLoad(d, HeadOf(isa, lay, s, ids, x).value))
  {
    hide Inv, Allowed, Next, RetireCount, FrontHalf, NextIds, Apply, LoadsBytes, StoresBytes, Aligns, WaitingAreNew, OutMatches, LoadMatches,
         AllUnderWay, PendingIsOld, Increasing, LoadValue, Misaligned, DI.Increasing, QueueMatches, MemoryMatches, Flushes, Execute, FromLanes;
    OperationStarts(isa, s, ids, next, x, RetireCount(s, x.storeBufferFull), Next(isa, s, x).w, NextIds(s, x, ids, next));
    var m := x.issue.mem.value;
    var i, a := s.w.ops[m].instr, isa.address(s.w.ops[m].instr, s.w.phases[m].op1.value);
    ExecutedLoad(isa, lay, i, s.w.ops[m].pc, s.w.phases[m].op1.value, s.w.phases[m].op2.value, Apply(isa, s.arch.mem, s.sq), |ram0|);
    if AddrOf(a).line < |ram0| {
      forall k | 0 <= k < |d.sq|
        ensures !Misaligned(d.sq[k].size, d.sq[k].addr.byte)
      {
        assert d.sq[k] in d.committed + d.sq;
      }
      ApplyMatches(isa, lay, ram0, s.w, ids, s.arch.mem, d.committed, s.sq, d.sq, AddrOf(a));
    }
  }

  lemma ExecutedLoad<M(!new)>(isa: Isa<M>, lay: Layout<M>, i: Instr, pc: Word, a: Word, b: Word, mem: M, lines: nat)
    requires LoadsBytes(isa, lay, lines) && Aligns(isa, lay) && !i.cls.Store? && (i.cls.Load? || i.cls.Store?)
    requires !Misaligned(lay.size(i), AddrOf(isa.address(i, a)).byte)
    ensures var out, at := Execute(isa, i, pc, a, b, mem), AddrOf(isa.address(i, a));
            && i.cls.Load? && !out.exception && out.addr == isa.address(i, a)
            && (at.line < lines ==> out.value == FromLanes(LoadValue(lay.word(mem, at), lay.size(i), lay.unsigned(i), at.byte)))
  {
    hide LoadValue, Misaligned, FromLanes;
  }

  lemma LoadStep<M(!new), P>(isa: Isa<M>, lay: Layout<M>, ram0: seq<Words>, p: D.Policy<P>, s: State<M>, d: D.State<P>, ids: seq<nat>, next: nat,
                             x: Inputs, device: Lanes)
    requires LoadsBytes(isa, lay, |ram0|) && StoresBytes(isa, lay, |ram0|) && Aligns(isa, lay) && DI.Ordered(d)
    requires Inv(isa, s) && s.Shape() && Allowed(isa, s, x) && !Flushes(s, x) && Joined(lay, ram0, s, d, ids, next)
    requires Wired(isa, lay, s, d, ids, x, device)
    requires var ld := D.LoadNext(d, DataInputs(isa, lay, s, d, ids, x, device)); ld.Some? && !ld.value.squashed
    ensures exists i: nat :: IsLoad(lay, ram0, Next(isa, s, x).w, NextIds(s, x, ids, next), i,
                                    D.LoadNext(d, DataInputs(isa, lay, s, d, ids, x, device)).value)
  {
    hide Inv, Allowed, Next, RetireCount, FrontHalf, NextIds, LoadsBytes, StoresBytes, Aligns, WaitingAreNew, OutMatches, DI.Ordered, HeadOf,
         AllUnderWay, PendingIsOld, Increasing, QueueMatches, MemoryMatches, Flushes, IsLoad, D.LoadNext, D.HeadTaken, Recovers, CommitsStore,
         ReportGranted, Wired;
    var dx := DataInputs(isa, lay, s, d, ids, x, device);
    DI.LoadCases(d, dx);
    if d.ld.Some? {
      DI.KeptStamp(d, dx);
      var i: nat :| IsLoad(lay, ram0, s.w, ids, i, d.ld.value);
      LoadStays(isa, lay, ram0, s, d, ids, next, x, device, i, d.ld.value);
    } else {
      LoadStarts(isa, lay, ram0, s, d, ids, next, x);
    }
  }

  /** A load's instruction stays the load's. */
  lemma LoadStays<M, P>(isa: Isa<M>, lay: Layout<M>, ram0: seq<Words>, s: State<M>, d: D.State<P>, ids: seq<nat>, next: nat, x: Inputs, device: Lanes,
                        i: nat, ld: D.Load)
    requires Inv(isa, s) && s.Shape() && Allowed(isa, s, x) && !Flushes(s, x) && |ids| == |s.w.ops| && Increasing(ids, next)
    requires Wired(isa, lay, s, d, ids, x, device) && IsLoad(lay, ram0, s.w, ids, i, ld)
    requires d.out.Some? && d.out.value.stamp == ld.stamp ==> !ReportGranted(s, d, ids, x)
    requires Recovers(s) && s.br.Some? && s.w.IndexOf(s.br.value) < |ids| ==> ld.stamp <= ids[s.w.IndexOf(s.br.value)]
    ensures RetireCount(s, x.storeBufferFull) <= i
    ensures IsLoad(lay, ram0, Next(isa, s, x).w, NextIds(s, x, ids, next), i - RetireCount(s, x.storeBufferFull), ld)
  {
    hide Inv, Allowed, Next, RetireCount, NextIds, Increasing, Flushes, Recovers, ReportGranted, Wired, LoadValue, FromLanes, Misaligned;
    OperationStays(isa, lay, s, d, ids, next, x, device, i, RetireCount(s, x.storeBufferFull), Next(isa, s, x).w, NextIds(s, x, ids, next));
  }

  /** What is on offer after a cycle: the load that finishes, what the queue head puts there, or what was there. */
  lemma OutShape<P>(d: D.State<P>, dx: D.Inputs)
    requires D.OutNext(d, dx).Some?
    ensures !dx.flush
    ensures if D.LoadClaims(d, dx) then
              && d.ld.Some? && !d.ld.value.squashed && D.OutNext(d, dx).value == D.LoadDone(d.ld.value.stamp, D.LoadResult(d, dx), d.ld.value)
              && (dx.squash.Some? ==> d.ld.value.stamp <= dx.squash.value)
            else if D.HeadResult(d, dx).Some? then
              && dx.head.Some? && D.HeadTaken(d, dx) && D.OutNext(d, dx).value.stamp == dx.head.value.Stamp()
              && (D.OutNext(d, dx).value.Faulted? <==> dx.head.value.IsMisaligned())
              && (D.OutNext(d, dx).value.StoreDone? ==> dx.head.value.HeadStore?)
              && (D.OutNext(d, dx).value.LoadDone? ==>
                    && dx.head.value.HeadLoad? && !dx.head.value.IsMisaligned()
                    && D.OutNext(d, dx).value.load == D.IssuedLoad(d, dx.head.value))
            else D.OutNext(d, dx) == d.out && !dx.grant && (dx.squash.Some? ==> d.out.value.stamp <= dx.squash.value)
  {
    hide D.Stalls, D.OutFree, D.HeadOutFree, StoreBuffer.Search, D.LoadResult, D.QueueValue, D.QueueForward;
  }

  lemma OutStep<M(!new), P>(isa: Isa<M>, lay: Layout<M>, ram0: seq<Words>, s: State<M>, d: D.State<P>, ids: seq<nat>, next: nat,
                            x: Inputs, device: Lanes)
    requires LoadsBytes(isa, lay, |ram0|) && StoresBytes(isa, lay, |ram0|) && Aligns(isa, lay) && DI.Ordered(d)
    requires Inv(isa, s) && s.Shape() && Allowed(isa, s, x) && !Flushes(s, x) && Joined(lay, ram0, s, d, ids, next)
    requires Wired(isa, lay, s, d, ids, x, device) && D.OutNext(d, DataInputs(isa, lay, s, d, ids, x, device)).Some?
    ensures var r := D.OutNext(d, DataInputs(isa, lay, s, d, ids, x, device)).value;
            exists i: nat :: IsResult(lay, ram0, Next(isa, s, x).w, NextIds(s, x, ids, next), i, r)
  {
    hide Inv, Allowed, Next, RetireCount, FrontHalf, NextIds, LoadsBytes, StoresBytes, Aligns, WaitingAreNew, DI.Ordered, HeadOf,
         AllUnderWay, PendingIsOld, Increasing, QueueMatches, MemoryMatches, Flushes, IsLoad, D.OutNext, D.HeadTaken, D.HeadResult, D.LoadClaims,
         Recovers, CommitsStore, ReportGranted, Wired, D.LoadResult, IsOperation;
    var dx := DataInputs(isa, lay, s, d, ids, x, device);
    OutShape(d, dx);
    if D.LoadClaims(d, dx) {
      var i: nat :| IsLoad(lay, ram0, s.w, ids, i, d.ld.value);
      LoadStays(isa, lay, ram0, s, d, ids, next, x, device, i, d.ld.value);
      LoadIsOperation(lay, ram0, Next(isa, s, x).w, NextIds(s, x, ids, next), i - RetireCount(s, x.storeBufferFull), d.ld.value);
      assert IsResult(lay, ram0, Next(isa, s, x).w, NextIds(s, x, ids, next), i - RetireCount(s, x.storeBufferFull), D.OutNext(d, dx).value);
    } else if D.HeadResult(d, dx).Some? {
      HeadIsAllowed(isa, lay, ram0, s, d, ids, next, x);
      OperationStarts(isa, s, ids, next, x, RetireCount(s, x.storeBufferFull), Next(isa, s, x).w, NextIds(s, x, ids, next));
      Issued(isa, s, x);
      HeadKind(isa, lay, s, ids, x, Apply(isa, s.arch.mem, s.sq));
      if D.OutNext(d, dx).value.LoadDone? {
        LoadStarts(isa, lay, ram0, s, d, ids, next, x);
      }
      assert IsResult(lay, ram0, Next(isa, s, x).w, NextIds(s, x, ids, next), x.issue.mem.value - RetireCount(s, x.storeBufferFull),
                      D.OutNext(d, dx).value);
    } else {
      OldOut(isa, lay, ram0, s, d, ids, next, x, device);
    }
  }

  lemma LoadIsOperation<M>(lay: Layout<M>, ram0: seq<Words>, w: Window, ids: seq<nat>, i: nat, ld: D.Load)
    requires IsLoad(lay, ram0, w, ids, i, ld)
    ensures IsOperation(w, ids, i, ld.stamp) && w.ops[i].instr.cls == Load && !w.phases[i].out.exception
  {
    hide LoadValue, Misaligned, FromLanes;
  }

  /** The unit finds a fault exactly where the instruction has one. */
  lemma HeadKind<M(!new)>(isa: Isa<M>, lay: Layout<M>, s: State<M>, ids: seq<nat>, x: Inputs, mem: M)
    requires Aligns(isa, lay) && HeadOf(isa, lay, s, ids, x).Some? && s.w.ops[x.issue.mem.value].IsMem()
    ensures var (head, op, p) := (HeadOf(isa, lay, s, ids, x).value, s.w.ops[x.issue.mem.value], s.w.phases[x.issue.mem.value]);
            && (head.HeadStore? <==> op.instr.cls.Store?)
            && (head.IsMisaligned() <==> Execute(isa, op.instr, op.pc, p.op1.value, p.op2.value, mem).exception)
  {
    hide Misaligned, AddrOf;
  }

  lemma OldOut<M, P>(isa: Isa<M>, lay: Layout<M>, ram0: seq<Words>, s: State<M>, d: D.State<P>, ids: seq<nat>, next: nat, x: Inputs, device: Lanes)
    requires Inv(isa, s) && s.Shape() && Allowed(isa, s, x) && !Flushes(s, x) && |ids| == |s.w.ops| && Increasing(ids, next)
    requires Wired(isa, lay, s, d, ids, x, device) && OutMatches(lay, ram0, s.w, ids, d) && d.out.Some? && !ReportGranted(s, d, ids, x)
    requires Recovers(s) && s.br.Some? && s.w.IndexOf(s.br.value) < |ids| ==> d.out.value.stamp <= ids[s.w.IndexOf(s.br.value)]
    ensures exists i: nat :: IsResult(lay, ram0, Next(isa, s, x).w, NextIds(s, x, ids, next), i, d.out.value)
  {
    hide Inv, Allowed, Next, RetireCount, FrontHalf, NextIds, Increasing, Flushes, IsLoad, Recovers, ReportGranted, Wired;
    var r, n := d.out.value, RetireCount(s, x.storeBufferFull);
    var i: nat :| IsResult(lay, ram0, s.w, ids, i, r);
    OperationStays(isa, lay, s, d, ids, next, x, device, i, RetireCount(s, x.storeBufferFull), Next(isa, s, x).w, NextIds(s, x, ids, next));
    if r.LoadDone? {
      LoadStays(isa, lay, ram0, s, d, ids, next, x, device, i, r.load);
    }
    assert IsResult(lay, ram0, Next(isa, s, x).w, NextIds(s, x, ids, next), i - n, r);
  }

  /** Every executing memory instruction stays, or comes to be, under way. */
  lemma UnderWayStep<M, P>(isa: Isa<M>, lay: Layout<M>, ram0: seq<Words>, p: D.Policy<P>, s: State<M>, d: D.State<P>, ids: seq<nat>, next: nat,
                           x: Inputs, device: Lanes)
    requires Inv(isa, s) && s.Shape() && Allowed(isa, s, x) && !Flushes(s, x) && Joined(lay, ram0, s, d, ids, next)
    requires Wired(isa, lay, s, d, ids, x, device) && D.Allowed(d, DataInputs(isa, lay, s, d, ids, x, device))
    ensures AllUnderWay(Next(isa, s, x).w, NextIds(s, x, ids, next), D.Next(p, d, DataInputs(isa, lay, s, d, ids, x, device)))
  {
    hide Inv, Allowed, Next, RetireCount, FrontHalf, NextIds, AdvanceOne, Flushes, Wired, D.Next, D.Allowed, DR.Pending, Joined;
    JoinedSize(lay, ram0, s, d, ids, next);
    var w', ids' := Next(isa, s, x).w, NextIds(s, x, ids, next);
    forall j | 0 <= j < |w'.ops| && j < |w'.phases| && j < |ids'| && w'.ops[j].IsMem() && w'.phases[j].Executing?
      ensures ids'[j] in DR.Pending(D.Next(p, d, DataInputs(isa, lay, s, d, ids, x, device)))
    {
      ExecutingIsUnderWay(isa, lay, ram0, p, s, d, ids, next, x, device, j);
    }
  }

  lemma ExecutingIsUnderWay<M, P>(isa: Isa<M>, lay: Layout<M>, ram0: seq<Words>, p: D.Policy<P>, s: State<M>, d: D.State<P>, ids: seq<nat>, next: nat,
                                  x: Inputs, device: Lanes, j: nat)
    requires Inv(isa, s) && s.Shape() && Allowed(isa, s, x) && !Flushes(s, x) && Joined(lay, ram0, s, d, ids, next)
    requires Wired(isa, lay, s, d, ids, x, device) && D.Allowed(d, DataInputs(isa, lay, s, d, ids, x, device))
    requires var w', ids' := Next(isa, s, x).w, NextIds(s, x, ids, next);
             j < |w'.ops| && j < |w'.phases| && j < |ids'| && w'.ops[j].IsMem() && w'.phases[j].Executing?
    ensures NextIds(s, x, ids, next)[j] in DR.Pending(D.Next(p, d, DataInputs(isa, lay, s, d, ids, x, device)))
  {
    hide Inv, Allowed, Next, RetireCount, FrontHalf, NextIds, AdvanceOne, Wired, D.Next, D.Allowed, DR.Pending, DR.Taken, DR.Reported,
         HeadOf, ReportGranted, CommitsStore, Recovers, LoadMatches, OutMatches, QueueMatches, MemoryMatches, WaitingAreNew;
    var dx := DataInputs(isa, lay, s, d, ids, x, device);
    CycleWindow(isa, s, x);
    IdsStep(isa, s, x, ids, next);
    var i := j + RetireCount(s, x.storeBufferFull);
    assert Next(isa, s, x).w.phases[i - RetireCount(s, x.storeBufferFull)] == AdvanceOne(isa, FrontHalf(isa, s, x), x, i);
    if x.issue.mem == Some(i) {
      StartedIsTaken(isa, lay, ram0, s, d, ids, next, x, device);
    } else {
      OnlyIssuedStarts(isa, s, x, i);
      RanOn(isa, lay, ram0, s, d, ids, next, x, device, i);
    }
    DR.NotLost(p, d, dx, ids[i]);
  }

  /** The instruction that starts is the operation taken. */
  lemma StartedIsTaken<M, P>(isa: Isa<M>, lay: Layout<M>, ram0: seq<Words>, s: State<M>, d: D.State<P>, ids: seq<nat>, next: nat, x: Inputs, device: Lanes)
    requires Inv(isa, s) && s.Shape() && Allowed(isa, s, x) && !Flushes(s, x) && Joined(lay, ram0, s, d, ids, next)
    requires Wired(isa, lay, s, d, ids, x, device) && x.issue.mem.Some?
    ensures var dx := DataInputs(isa, lay, s, d, ids, x, device);
            && x.issue.mem.value < |ids| && DR.Taken(d, dx) == Some(ids[x.issue.mem.value]) && !Recovers(s)
            && DR.Reported(d, dx) != Some(ids[x.issue.mem.value])
  {
    hide Inv, Allowed, FrontHalf, AdvanceOne, D.HeadTaken, Execute, Apply, HeadOf, ReportGranted, CommitsStore, LoadMatches, OutMatches, QueueMatches,
         MemoryMatches, RetireCount, Flushes, DR.Pending;
    HeadIsAllowed(isa, lay, ram0, s, d, ids, next, x);
    Issued(isa, s, x);
    DR.OutIsPending(d);
  }

  /** One that was executing and still is has not been reported, and no recovery squashes it. */
  lemma RanOn<M, P>(isa: Isa<M>, lay: Layout<M>, ram0: seq<Words>, s: State<M>, d: D.State<P>, ids: seq<nat>, next: nat, x: Inputs, device: Lanes, i: nat)
    requires Inv(isa, s) && s.Shape() && Allowed(isa, s, x) && !Flushes(s, x) && Joined(lay, ram0, s, d, ids, next)
    requires Wired(isa, lay, s, d, ids, x, device) && i < |ids| && i < |FrontHalf(isa, s, x).w.ops| && i < |FrontHalf(isa, s, x).w.phases|
    requires IsOperation(s.w, ids, i, ids[i]) && AdvanceOne(isa, FrontHalf(isa, s, x), x, i).Executing?
    ensures var dx := DataInputs(isa, lay, s, d, ids, x, device);
            && ids[i] in DR.Pending(d) && DR.Reported(d, dx) != Some(ids[i])
            && (dx.squash.Some? ==> ids[i] <= dx.squash.value)
  {
    hide Inv, Allowed, FrontHalf, AdvanceOne, HeadOf, CommitsStore, LoadMatches, OutMatches, QueueMatches,
         MemoryMatches, RetireCount, DR.Pending, BusesOf, OnBus, Mispredicted;
    CoreBuffer.FrontFacts(isa, s, x);
    NotTheBranch(isa, s, i);
    CoreBuffer.SameBuses(isa, s, x, i);
    SharedOnBus(isa, s, x, i);
    ExecutingMoves(isa, FrontHalf(isa, s, x), x, i);
    if ReportGranted(s, d, ids, x) && d.out.value.stamp == ids[i] {
      ReportIsBus(s, d, ids, next, x, i);
    }
  }

  lemma ReportIsBus<M, P>(s: State<M>, d: D.State<P>, ids: seq<nat>, next: nat, x: Inputs, i: nat)
    requires ReportGranted(s, d, ids, x) && Increasing(ids, next) && i < |ids| && d.out.value.stamp == ids[i]
    ensures OnBus(x, s.w.TagOf(i))
  {
    hide OnBus;
    var k: nat :| k < |ids| && ids[k] == d.out.value.stamp && OnBus(x, s.w.TagOf(k));
  }
}
