/** The back end and the data side together are never stuck either. */
module CoreMemoryLiveness {
  import opened Prelude
  import opened OooPackage
  import opened Isa
  import opened Dataflow
  import opened Core
  import opened CoreInvariant
  import opened CoreTable
  import opened CoreCycle
  import opened Bytes
  import opened CoreMemory
  import opened CoreMemorySteps
  import opened CoreLivenessSteps
  import opened CoreMemoryTheorems
  import CoreBuffer
  import CoreLiveness
  import CoreStations
  import CoreTheorems
  import Progress
  import D = DataSide
  import DI = DataSideInvariant
  import DL = DataSideLiveness

  // ---- cycles in which nothing is dispatched or issued ----

  ghost predicate Quiet(x: Inputs) {
    x.dispatch == 0 && !x.interrupt && x.issue == CoreStations.NO_ISSUE && x.fetch == []
  }

  lemma QuietEmpties<M>(isa: Isa<M>, s: State<M>, x: Inputs)
    requires Allowed(isa, s, x) && Quiet(x) && !TakesTrap(s)
    ensures var s' := Next(isa, s, x); s'.alu0.None? && s'.alu1.None? && s'.br.None?
  {
    hide Allowed, FrontHalf, AdvanceAll, Enqueue, RetireMany, RetireCount;
    CoreBuffer.FrontKeepsCompleted(isa, s, x);
    CoreLiveness.RetireKeepsUnits(isa, Advance(isa, FrontHalf(isa, s, x), x), RetireCount(s, x.storeBufferFull));
  }

  /** The head stays where it is, and does not go back. */
  lemma QuietHead<M>(isa: Isa<M>, s: State<M>, x: Inputs, ids: seq<nat>, next: nat)
    requires Inv(isa, s) && s.Shape() && Allowed(isa, s, x) && Quiet(x) && !TakesTrap(s) && |s.w.ops| > 0
    requires RetireCount(s, x.storeBufferFull) == 0 && |ids| == |s.w.ops| && Increasing(ids, next)
    ensures !Flushes(s, x)
    ensures var (w', ids') := (Next(isa, s, x).w, NextIds(s, x, ids, next));
            && |w'.ops| > 0 && |w'.phases| > 0 && w'.ops[0] == s.w.ops[0] && Stage(w'.phases[0]) >= Stage(s.w.phases[0])
            && |ids'| > 0 && ids'[0] == ids[0]
  {
    hide Inv, Allowed, Next, FrontHalf, AdvanceOne, Mispredicted, RetireCount, TakesTrap, NextIds, Increasing;
    CycleWindow(isa, s, x);
    CoreBuffer.FrontFacts(isa, s, x);
    IdsStep(isa, s, x, ids, next);
    CoreLiveness.StageRises(isa, FrontHalf(isa, s, x), x, 0);
  }

  /** Whether the store buffer is full matters only to what retires. */
  lemma AllowedEither<M>(isa: Isa<M>, s: State<M>, x: Inputs, full: bool)
    requires Allowed(isa, s, x)
    ensures Allowed(isa, s, x.(storeBufferFull := full))
  {
    hide Recover, CanDispatchMany, DispatchMany, Recovers, TakesTrap;
    var y := x.(storeBufferFull := full);
    assert TakesInterrupt(s, y) == TakesInterrupt(s, x);
    assert forall t: State<M> :: t.Shape() ==> CanAdvance(s, t, y) == CanAdvance(s, t, x);
  }

  lemma OnlyRetires<M>(isa: Isa<M>, s: State<M>, x: Inputs, full: bool)
    requires Allowed(isa, s, x) && Allowed(isa, s, x.(storeBufferFull := full)) && RetireCount(s, x.storeBufferFull) == RetireCount(s, full)
    ensures Next(isa, s, x.(storeBufferFull := full)) == Next(isa, s, x)
  {
    hide Recover, RetireCount, RetireMany, DispatchMany, Fetch, Recovers, TakesTrap, Advance, Flush, Allowed;
    var y := x.(storeBufferFull := full);
    assert Flushes(s, x) == Flushes(s, y);
    if !Flushes(s, x) {
      assert FrontHalf(isa, s, y) == FrontHalf(isa, s, x);
      SameAdvance(isa, FrontHalf(isa, s, x), x, full);
    }
  }

  lemma SameAdvance<M>(isa: Isa<M>, s: State<M>, x: Inputs, full: bool)
    requires s.Shape()
    ensures Advance(isa, s, x.(storeBufferFull := full)) == Advance(isa, s, x)
  {
    hide BusesOf, AdvanceOne;
    var y := x.(storeBufferFull := full);
    forall i | 0 <= i < |s.w.ops|
      ensures AdvanceOne(isa, s, y, i) == AdvanceOne(isa, s, x, i)
    {
      SameAdvanceOne(isa, s, x, full, i);
    }
    assert AdvanceAll(isa, s, y, |s.w.ops|) == AdvanceAll(isa, s, x, |s.w.ops|);
  }

  lemma SameAdvanceOne<M>(isa: Isa<M>, s: State<M>, x: Inputs, full: bool, i: nat)
    requires i < |s.w.ops| && i < |s.w.phases|
    ensures AdvanceOne(isa, s, x.(storeBufferFull := full), i) == AdvanceOne(isa, s, x, i)
  {
    hide Execute;
  }

  // ---- the distance to the next commit ----

  predicate Full<P>(d: D.State<P>) {
    |d.sb| >= D.STOREBUF_DEPTH
  }

  predicate OffersHead<P>(d: D.State<P>, ids: seq<nat>) {
    |ids| > 0 && d.out.Some? && d.out.value.stamp == ids[0]
  }

  /** What the data side adds to the back end's distance: the cycles until a full store buffer has room, or until the load
      stage gives up the load that the head is, or that is in the head's way. */
  function DataPart<M, P>(s: State<M>, d: D.State<P>, ids: seq<nat>): nat {
    if |s.w.ops| == 0 || |s.w.phases| == 0 then 0
    else match s.w.phases[0]
      case Done(_) => if Full(d) then DL.Busy(d) + 1 else 0
      case Executing(_) => if !s.w.ops[0].IsMem() || OffersHead(d, ids) then 0 else if d.ld.Some? then 1 + DL.Rank(d) else 1
      case Waiting(_, _) => if s.w.ops[0].IsMem() && d.ld.Some? then 1 + DL.Rank(d) else 0
  }

  ghost function Rank<M, P>(s: State<M>, d: D.State<P>, ids: seq<nat>): nat {
    16 * CoreLiveness.Rank(s) + DataPart(s, d, ids)
  }

  lemma DataPartBound<M, P>(p: D.Policy<P>, s: State<M>, d: D.State<P>, ids: seq<nat>)
    requires DI.Refilling(p, d) && DL.Sized(d)
    ensures DataPart(s, d, ids) <= 15
  {
    hide DL.Rank, DL.Busy, DI.Refilling;
    DL.BusyBound(p, d);
    if d.ld.Some? {
      DL.RankBound(p, d);
    }
  }

  /** What holds in every cycle of a joint run. */
  ghost predicate Good<M(!new), P(!new)>(isa: Isa<M>, lay: Layout<M>, ram0: seq<Words>, p: D.Policy<P>, s: State<M>, d: D.State<P>, ids: seq<nat>, next: nat) {
    && Inv(isa, s) && s.Shape() && FaultsAreDone(s.w) && Joined(lay, ram0, s, d, ids, next)
    && DI.Inv(p, ram0, d) && DL.Sized(d) && |ids| == |s.w.ops|
  }

  /** A cycle of the two together that commits something or brings the next commit nearer. */
  ghost predicate Nearer<M, P>(isa: Isa<M>, lay: Layout<M>, p: D.Policy<P>, s: State<M>, d: D.State<P>, ids: seq<nat>, next: nat, x: Inputs) {
    var dx := DataInputs(isa, lay, s, d, ids, x, ZERO);
    && Allowed(isa, s, x) && Wired(isa, lay, s, d, ids, x, ZERO) && D.Allowed(d, dx)
    && (s.log < Next(isa, s, x).log || Rank(Next(isa, s, x), D.Next(p, d, dx), NextIds(s, x, ids, next)) < Rank(s, d, ids))
  }

  /** Where the back end alone gets nearer, and its load/store unit is not concerned. */
  lemma BackEndNearer<M(!new), P(!new)>(isa: Isa<M>, lay: Layout<M>, ram0: seq<Words>, p: D.Policy<P>, s: State<M>, d: D.State<P>, ids: seq<nat>, next: nat,
                                        x: Inputs)
    requires Good(isa, lay, ram0, p, s, d, ids, next) && Allowed(isa, s, x) && Wired(isa, lay, s, d, ids, x, ZERO)
    requires s.log < Next(isa, s, x).log || CoreLiveness.Rank(Next(isa, s, x)) < CoreLiveness.Rank(s)
    ensures Nearer(isa, lay, p, s, d, ids, next, x)
  {
    hide Inv, Allowed, Next, D.Next, Wired, Joined, FaultsAreDone, DataInputs, NextIds, DataPart, CoreLiveness.Rank, DI.Inv, D.Allowed;
    DataAllowed(isa, lay, ram0, s, d, ids, next, x, ZERO);
    var dx := DataInputs(isa, lay, s, d, ids, x, ZERO);
    var s', d', ids' := Next(isa, s, x), D.Next(p, d, dx), NextIds(s, x, ids, next);
    DI.NextKeepsInv(p, ram0, d, dx);
    DL.SizedStep(p, d, dx);
    RefillingOf(p, ram0, d');
    DataPartBound(p, s', d', ids');
  }

  lemma RefillingOf<P(!new)>(p: D.Policy<P>, ram0: seq<Words>, d: D.State<P>)
    requires DI.Inv(p, ram0, d)
    ensures DI.Refilling(p, d) && DI.Ordered(d)
  {
    hide DI.Written, DI.TagsDiffer, DI.Coherent, DI.Refilling, DI.Waiting, DI.Ordered, DI.OlderExact, DI.LoadSees, DI.OutRight;
  }

  /** The load/store unit is concerned: its instruction is the head and has not finished, or a store waits for room. */
  predicate Concerned<M, P>(s: State<M>, d: D.State<P>) {
    |s.w.ops| > 0 && |s.w.phases| > 0 && s.w.ops[0].IsMem() && (s.w.phases[0].Done? ==> Full(d))
  }

  lemma UnconcernedNearer<M(!new), P(!new)>(isa: Isa<M>, lay: Layout<M>, ram0: seq<Words>, p: D.Policy<P>, s: State<M>, d: D.State<P>, ids: seq<nat>, next: nat)
      returns (x: Inputs)
    requires Good(isa, lay, ram0, p, s, d, ids, next) && (Concerned(s, d) ==> TakesTrap(s))
    ensures Nearer(isa, lay, p, s, d, ids, next, x)
  {
    hide Inv, Allowed, Next, Joined, FaultsAreDone, CoreLiveness.Rank, DI.Inv, RetireCount, Wired, Nearer;
    var y := CoreLiveness.ComesNearer(isa, s);
    x := y.(storeBufferFull := Full(d));
    AllowedEither(isa, s, y, Full(d));
    UnconcernedWired(isa, lay, s, d, ids, x);
    if RetireCount(s, false) == RetireCount(s, Full(d)) {
      OnlyRetires(isa, s, y, Full(d));
    } else {
      FullMatters(s);
      CoreLiveness.CommitsOneOrTwo(isa, s, x);
      CoreLiveness.LogGrows(isa, s, x);
    }
    BackEndNearer(isa, lay, ram0, p, s, d, ids, next, x);
  }

  lemma FullMatters<M>(s: State<M>)
    requires RetireCount(s, false) != RetireCount(s, true)
    ensures |s.w.ops| > 0 && |s.w.phases| > 0 && s.w.phases[0].Done? && !s.w.phases[0].out.exception
  {
  }

  lemma UnconcernedWired<M, P>(isa: Isa<M>, lay: Layout<M>, s: State<M>, d: D.State<P>, ids: seq<nat>, x: Inputs)
    requires s.Shape() && OnlyHead(s, x.(storeBufferFull := false)) && x.storeBufferFull == Full(d) && (Concerned(s, d) ==> TakesTrap(s))
    ensures Wired(isa, lay, s, d, ids, x, ZERO)
  {
    hide DataInputs, D.HeadTaken;
    AgeOfTagAt(s.w.head, 0);
    TagAtZero(s.w.head);
    var y := x.(storeBufferFull := false);
    forall t: Tag | OnBus(x, t)
      ensures t == s.w.head && |s.w.ops| > 0 && !s.w.ops[0].IsMem()
    {
      assert OnBus(y, t);
    }
  }

  // ---- quiet cycles of the two together ----

  /** In a quiet cycle in which nothing commits the data side is given nothing but a grant, a recovery, or neither. */
  lemma QuietInputs<M, P>(isa: Isa<M>, lay: Layout<M>, s: State<M>, d: D.State<P>, ids: seq<nat>, x: Inputs)
    requires s.Shape() && Quiet(x) && !Flushes(s, x) && RetireCount(s, x.storeBufferFull) == 0
    ensures var dx := DataInputs(isa, lay, s, d, ids, x, ZERO);
            && !dx.flush && !dx.commit && dx.head.None? && dx.grant == ReportGranted(s, d, ids, x) && (!Recovers(s) ==> dx.squash.None?)
  {
    hide RetireCount, ReportGranted, Recovers, Flushes;
  }

  /** And the back end's distance does not grow; if the issue registers held something up, it shrinks. */
  lemma QuietRank<M>(isa: Isa<M>, s: State<M>, x: Inputs, ids: seq<nat>, next: nat)
    requires Inv(isa, s) && s.Shape() && Allowed(isa, s, x) && Quiet(x) && !TakesTrap(s) && |s.w.ops| > 0
    requires RetireCount(s, x.storeBufferFull) == 0 && |ids| == |s.w.ops| && Increasing(ids, next)
    ensures var s' := Next(isa, s, x);
            && |s'.w.ops| > 0 && |s'.w.phases| > 0 && s'.w.ops[0] == s.w.ops[0] && Stage(s'.w.phases[0]) >= Stage(s.w.phases[0])
            && CoreLiveness.Rank(s') <= CoreLiveness.Rank(s)
            && (Stage(s'.w.phases[0]) > Stage(s.w.phases[0]) || Recovers(s) || Progress.HeadRefused(s) ==> CoreLiveness.Rank(s') < CoreLiveness.Rank(s))
  {
    hide Inv, Allowed, Next, TakesTrap, RetireCount, Increasing, Mispredicted, NextIds;
    QuietEmpties(isa, s, x);
    QuietHead(isa, s, x, ids, next);
  }

  lemma IdleIsQuiet<M>(isa: Isa<M>, s: State<M>, full: bool)
    requires s.Shape()
    ensures var x := IDLE.(storeBufferFull := full); Quiet(x) && Allowed(isa, s, x) && forall t: Tag :: !OnBus(x, t)
  {
    hide Allowed;
    CoreTheorems.IdleIsAllowed(isa, s);
    AllowedEither(isa, s, IDLE, full);
  }

  lemma IdleIsWired<M, P>(isa: Isa<M>, lay: Layout<M>, s: State<M>, d: D.State<P>, ids: seq<nat>)
    ensures Wired(isa, lay, s, d, ids, IDLE.(storeBufferFull := Full(d)), ZERO)
  {
    hide DataInputs, D.HeadTaken;
  }

  lemma BufferNext<P>(p: D.Policy<P>, d: D.State<P>, dx: D.Inputs)
    requires D.Allowed(d, dx) && !dx.commit && DL.Busy(d) == 0 && d.sb != [] && DI.Refilling(p, d)
    ensures |D.Next(p, d, dx).sb| == |d.sb| - 1
  {
    hide D.MemoryNext, D.LinesNext, D.PolicyNext, D.ReadNext, D.LoadNext, D.OutNext, D.QueueNext, D.FillNext, D.DroppedNext, D.StartUncached, D.HeadTaken;
  }

  /** A finished store at the head waits for the buffer, which drains. */
  lemma StoreWaits<M(!new), P(!new)>(isa: Isa<M>, lay: Layout<M>, ram0: seq<Words>, p: D.Policy<P>, s: State<M>, d: D.State<P>, ids: seq<nat>, next: nat)
      returns (x: Inputs)
    requires Good(isa, lay, ram0, p, s, d, ids, next) && !TakesTrap(s)
    requires |s.w.ops| > 0 && |s.w.phases| > 0 && s.w.ops[0].instr.cls == Class.Store && s.w.phases[0].Done? && Full(d)
    ensures Nearer(isa, lay, p, s, d, ids, next, x)
  {
    hide Inv, Allowed, Next, Wired, FaultsAreDone, DataInputs, NextIds, CoreLiveness.Rank, DI.Inv, D.Allowed, D.Next, TakesTrap, DL.Busy, DI.Refilling,
         Increasing, WaitingAreNew, QueueMatches, MemoryMatches, LoadMatches, OutMatches, AllUnderWay, PendingIsOld;
    x := IDLE.(storeBufferFull := true);
    IdleIsQuiet(isa, s, true);
    IdleIsWired(isa, lay, s, d, ids);
    DataAllowed(isa, lay, ram0, s, d, ids, next, x, ZERO);
    var dx := DataInputs(isa, lay, s, d, ids, x, ZERO);
    QuietRank(isa, s, x, ids, next);
    QuietInputs(isa, lay, s, d, ids, x);
    RefillingOf(p, ram0, d);
    DL.DrainStep(p, d, dx);
    if DL.Busy(d) == 0 {
      BufferNext(p, d, dx);
    }
  }

  // ---- the head is a memory instruction, waiting ----

  /** While the oldest memory instruction waits in its queue, none has left it. */
  lemma NoneLeft<M(!new), P(!new)>(isa: Isa<M>, lay: Layout<M>, ram0: seq<Words>, p: D.Policy<P>, s: State<M>, d: D.State<P>, ids: seq<nat>, next: nat)
    requires Good(isa, lay, ram0, p, s, d, ids, next) && |s.w.ops| > 0 && |s.w.phases| > 0 && s.w.ops[0].IsMem() && s.w.phases[0].Waiting?
    ensures d.sq == [] && d.out.None? && (d.ld.Some? ==> d.ld.value.squashed)
  {
    hide DI.Inv, InOrder, Outcomes, Operands, Renaming, Units, Histories, LeftStores, WaitingAreNew, MemoryMatches, AllUnderWay, PendingIsOld, Increasing,
         FaultsAreDone;
    if s.sq != [] {
      LeftStoreOf(s.w, |s.w.ops|, 0);
    }
  }

  lemma WaitingMemory<M(!new), P(!new)>(isa: Isa<M>, lay: Layout<M>, ram0: seq<Words>, p: D.Policy<P>, s: State<M>, d: D.State<P>, ids: seq<nat>, next: nat)
      returns (x: Inputs)
    requires Good(isa, lay, ram0, p, s, d, ids, next) && !TakesTrap(s)
    requires |s.w.ops| > 0 && |s.w.phases| > 0 && s.w.ops[0].IsMem() && s.w.phases[0].Waiting?
    ensures Nearer(isa, lay, p, s, d, ids, next, x)
  {
    hide Inv, Allowed, Next, Wired, FaultsAreDone, DataInputs, NextIds, CoreLiveness.Rank, DI.Inv, D.Allowed, D.Next, TakesTrap, DI.Refilling,
         Increasing, WaitingAreNew, QueueMatches, MemoryMatches, LoadMatches, OutMatches, AllUnderWay, PendingIsOld, RetireCount, Recovers, Nearer;
    NoneLeft(isa, lay, ram0, p, s, d, ids, next);
    NoneRetire(s, false);
    NoneRetire(s, true);
    if !Recovers(s) && d.ld.None? {
      var y := Selecting(s.w.ops[0].instr.cls);
      x := y.(storeBufferFull := Full(d));
      WaitingHeadMoves(isa, s);
      SelectingIsAllowed(isa, s);
      AllowedEither(isa, s, y, Full(d));
      OnlyRetires(isa, s, y, Full(d));
      TakesHead(isa, lay, s, d, ids);
      StageLowers(s, Next(isa, s, x));
      BackEndNearer(isa, lay, ram0, p, s, d, ids, next, x);
    } else {
      x := IDLE.(storeBufferFull := Full(d));
      IdleIsQuiet(isa, s, Full(d));
      IdleIsWired(isa, lay, s, d, ids);
      QuietRank(isa, s, x, ids, next);
      if Recovers(s) {
        BackEndNearer(isa, lay, ram0, p, s, d, ids, next, x);
      } else {
        SquashedLeaves(isa, lay, ram0, p, s, d, ids, next, x);
      }
    }
  }

  lemma StageLowers<M>(s: State<M>, s': State<M>)
    requires s.Shape() && s'.Shape() && |s.w.ops| > 0 && |s'.w.ops| > 0
    requires Stage(s'.w.phases[0]) == Stage(s.w.phases[0]) + 1 && !Recovers(s) && !Progress.HeadRefused(s)
    ensures CoreLiveness.Rank(s') < CoreLiveness.Rank(s)
  {
    hide Recovers, Progress.HeadRefused;
  }

  /** The queue's head is taken: nothing is in its way. */
  lemma TakesHead<M, P>(isa: Isa<M>, lay: Layout<M>, s: State<M>, d: D.State<P>, ids: seq<nat>)
    requires s.Shape() && |s.w.ops| > 0 && |ids| == |s.w.ops| && s.w.ops[0].IsMem() && s.w.phases[0].Waiting? && !Recovers(s)
    requires d.sq == [] && d.out.None? && d.ld.None?
    ensures Wired(isa, lay, s, d, ids, Selecting(s.w.ops[0].instr.cls).(storeBufferFull := Full(d)), ZERO)
  {
    hide D.HeadTaken, RetireCount, ReportGranted, Recovers;
    var x := Selecting(s.w.ops[0].instr.cls).(storeBufferFull := Full(d));
    if !Flushes(s, x) {
      DL.QuietMeansTaken(d, DataInputs(isa, lay, s, d, ids, x, ZERO));
    }
  }

  /** A squashed load in the load stage comes to its end. */
  lemma SquashedLeaves<M(!new), P(!new)>(isa: Isa<M>, lay: Layout<M>, ram0: seq<Words>, p: D.Policy<P>, s: State<M>, d: D.State<P>, ids: seq<nat>, next: nat,
                                         x: Inputs)
    requires Good(isa, lay, ram0, p, s, d, ids, next) && !TakesTrap(s) && x == IDLE.(storeBufferFull := Full(d))
    requires Allowed(isa, s, x) && Wired(isa, lay, s, d, ids, x, ZERO) && RetireCount(s, x.storeBufferFull) == 0
    requires |s.w.ops| > 0 && |s.w.phases| > 0 && s.w.ops[0].IsMem() && s.w.phases[0].Waiting? && d.ld.Some? && d.ld.value.squashed
    ensures Nearer(isa, lay, p, s, d, ids, next, x)
  {
    hide Inv, Allowed, Next, Wired, FaultsAreDone, DataInputs, NextIds, CoreLiveness.Rank, DI.Inv, D.Allowed, D.Next, TakesTrap, DI.Refilling,
         Increasing, WaitingAreNew, QueueMatches, MemoryMatches, LoadMatches, OutMatches, AllUnderWay, PendingIsOld, RetireCount, Recovers, DL.Rank,
         D.LoadNext, Flushes;
    DataAllowed(isa, lay, ram0, s, d, ids, next, x, ZERO);
    var dx := DataInputs(isa, lay, s, d, ids, x, ZERO);
    QuietRank(isa, s, x, ids, next);
    QuietHead(isa, s, x, ids, next);
    QuietInputs(isa, lay, s, d, ids, x);
    DL.NextLoad(p, d, dx);
    if D.LoadNext(d, dx).Some? {
      DL.RankFalls(p, ram0, d, dx);
    }
  }

  // ---- the head is a memory instruction, executing ----

  /** The unit has the head: its result is on offer, or it is the load in the load stage. */
  lemma HeadUnderWay<M(!new), P(!new)>(isa: Isa<M>, lay: Layout<M>, ram0: seq<Words>, p: D.Policy<P>, s: State<M>, d: D.State<P>, ids: seq<nat>, next: nat)
    requires Good(isa, lay, ram0, p, s, d, ids, next) && |s.w.ops| > 0 && |s.w.phases| > 0 && s.w.ops[0].IsMem() && s.w.phases[0].Executing?
    ensures OffersHead(d, ids) || (d.ld.Some? && !d.ld.value.squashed && d.ld.value.stamp == ids[0])
  {
    hide Inv, DI.Inv, WaitingAreNew, MemoryMatches, QueueMatches, LoadMatches, OutMatches, PendingIsOld, Increasing, FaultsAreDone;
  }

  /** A free bus for the tag t. */
  function GrantTo<M>(s: State<M>, t: Tag, full: bool): Inputs {
    if s.alu0.None? then IDLE.(bus0 := Some(t), storeBufferFull := full)
    else if s.alu1.None? then IDLE.(bus1 := Some(t), storeBufferFull := full)
    else IDLE.(bus2 := Some(t), storeBufferFull := full)
  }

  lemma GrantToIsAllowed<M>(isa: Isa<M>, s: State<M>, i: nat, full: bool)
    requires Inv(isa, s) && s.Shape() && !Recovers(s) && i < |s.w.ops| && s.w.ops[i].IsMem()
    requires s.alu0.None? || s.alu1.None? || s.br.None?
    ensures var x := GrantTo(s, s.w.TagOf(i), full); Quiet(x) && Allowed(isa, s, x) && forall t: Tag :: OnBus(x, t) <==> t == s.w.TagOf(i)
  {
    hide Inv, Recovers, TakesTrap;
    AgeOfTagAt(s.w.head, i);
  }

  /** The instruction whose result is on offer is given a bus. */
  lemma GrantsOffer<M(!new), P(!new)>(isa: Isa<M>, lay: Layout<M>, ram0: seq<Words>, p: D.Policy<P>, s: State<M>, d: D.State<P>, ids: seq<nat>, next: nat)
      returns (x: Inputs)
    requires Good(isa, lay, ram0, p, s, d, ids, next) && !Recovers(s) && d.out.Some?
    requires s.alu0.None? || s.alu1.None? || s.br.None?
    ensures Quiet(x) && x.storeBufferFull == Full(d) && Allowed(isa, s, x) && Wired(isa, lay, s, d, ids, x, ZERO) && ReportGranted(s, d, ids, x)
    ensures OffersHead(d, ids) && |s.w.ops| > 0 ==> OnBus(x, s.w.head)
  {
    hide Inv, DI.Inv, WaitingAreNew, MemoryMatches, QueueMatches, LoadMatches, AllUnderWay, PendingIsOld, FaultsAreDone, Allowed, DataInputs,
         IsLoad, Recovers, OnBus;
    var i: nat :| IsResult(lay, ram0, s.w, ids, i, d.out.value);
    x := GrantTo(s, s.w.TagOf(i), Full(d));
    GrantToIsAllowed(isa, s, i, Full(d));
    AgeOfTagAt(s.w.head, i);
    TagAtZero(s.w.head);
  }

  lemma ExecutingMemory<M(!new), P(!new)>(isa: Isa<M>, lay: Layout<M>, ram0: seq<Words>, p: D.Policy<P>, s: State<M>, d: D.State<P>, ids: seq<nat>, next: nat)
      returns (x: Inputs)
    requires Good(isa, lay, ram0, p, s, d, ids, next) && !TakesTrap(s)
    requires |s.w.ops| > 0 && |s.w.phases| > 0 && s.w.ops[0].IsMem() && s.w.phases[0].Executing?
    ensures Nearer(isa, lay, p, s, d, ids, next, x)
  {
    hide Inv, Allowed, Next, Wired, FaultsAreDone, DataInputs, NextIds, CoreLiveness.Rank, DI.Inv, D.Allowed, D.Next, TakesTrap, DI.Refilling,
         Increasing, WaitingAreNew, QueueMatches, MemoryMatches, LoadMatches, OutMatches, AllUnderWay, PendingIsOld, RetireCount, Recovers, Nearer,
         OnBus, ReportGranted;
    NoneRetire(s, Full(d));
    var idle := IDLE.(storeBufferFull := Full(d));
    IdleIsQuiet(isa, s, Full(d));
    IdleIsWired(isa, lay, s, d, ids);
    if Recovers(s) || Progress.HeadRefused(s) {
      x := idle;
      QuietRank(isa, s, x, ids, next);
      BackEndNearer(isa, lay, ram0, p, s, d, ids, next, x);
    } else {
      if d.out.Some? {
        x := GrantsOffer(isa, lay, ram0, p, s, d, ids, next);
      } else {
        x := idle;
      }
      QuietRank(isa, s, x, ids, next);
      if OffersHead(d, ids) {
        GrantedHeadMoves(isa, s, x, ids, next);
        BackEndNearer(isa, lay, ram0, p, s, d, ids, next, x);
      } else {
        HeadUnderWay(isa, lay, ram0, p, s, d, ids, next);
        LoadComesNearer(isa, lay, ram0, p, s, d, ids, next, x);
      }
    }
  }

  lemma GrantedHeadMoves<M>(isa: Isa<M>, s: State<M>, x: Inputs, ids: seq<nat>, next: nat)
    requires Inv(isa, s) && s.Shape() && Allowed(isa, s, x) && Quiet(x) && !TakesTrap(s) && !Recovers(s) && !Progress.HeadRefused(s)
    requires |s.w.ops| > 0 && s.w.ops[0].IsMem() && s.w.phases[0].Executing? && OnBus(x, s.w.head) && |ids| == |s.w.ops| && Increasing(ids, next)
    ensures CoreLiveness.Rank(Next(isa, s, x)) < CoreLiveness.Rank(s)
  {
    hide Inv, Allowed, Next, TakesTrap, RetireCount, Increasing, OnBus, CoreLiveness.Rank, Recovers;
    NoneRetire(s, x.storeBufferFull);
    QuietHead(isa, s, x, ids, next);
    QuietRank(isa, s, x, ids, next);
    TagAtZero(s.w.head);
    SharedMoves(isa, s, x, 0);
  }

  /** The load stage brings the head's load nearer to its end, or puts its result on offer. */
  lemma LoadComesNearer<M(!new), P(!new)>(isa: Isa<M>, lay: Layout<M>, ram0: seq<Words>, p: D.Policy<P>, s: State<M>, d: D.State<P>, ids: seq<nat>, next: nat,
                                          x: Inputs)
    requires Good(isa, lay, ram0, p, s, d, ids, next) && !TakesTrap(s) && !Recovers(s) && Quiet(x)
    requires Allowed(isa, s, x) && Wired(isa, lay, s, d, ids, x, ZERO) && RetireCount(s, x.storeBufferFull) == 0
    requires |s.w.ops| > 0 && |s.w.phases| > 0 && s.w.ops[0].IsMem() && s.w.phases[0].Executing? && !OffersHead(d, ids)
    requires d.ld.Some? && !d.ld.value.squashed && d.ld.value.stamp == ids[0] && (d.out.Some? ==> ReportGranted(s, d, ids, x))
    ensures Nearer(isa, lay, p, s, d, ids, next, x)
  {
    hide Inv, Allowed, Next, Wired, FaultsAreDone, DataInputs, NextIds, CoreLiveness.Rank, DI.Inv, D.Allowed, D.Next, TakesTrap, DI.Refilling,
         Increasing, WaitingAreNew, QueueMatches, MemoryMatches, LoadMatches, OutMatches, AllUnderWay, PendingIsOld, RetireCount, Recovers, DL.Rank,
         D.LoadNext, D.OutNext, Flushes, ReportGranted, DL.Stays, D.LoadClaims;
    DataAllowed(isa, lay, ram0, s, d, ids, next, x, ZERO);
    var dx := DataInputs(isa, lay, s, d, ids, x, ZERO);
    QuietRank(isa, s, x, ids, next);
    QuietHead(isa, s, x, ids, next);
    QuietInputs(isa, lay, s, d, ids, x);
    DL.NextLoad(p, d, dx);
    DL.StaysOrClaims(d, dx);
    if D.LoadClaims(d, dx) {
      DL.Claimed(d, dx);
    } else {
      DL.RankFalls(p, ram0, d, dx);
      NothingOffered(d, dx);
    }
  }

  lemma NothingOffered<P>(d: D.State<P>, dx: D.Inputs)
    requires !D.LoadClaims(d, dx) && dx.head.None? && D.OutFree(d, dx) && !dx.flush
    ensures D.OutNext(d, dx).None?
  {
    hide D.LoadClaims;
  }

  // ---- every case ----

  lemma JointComesNearer<M(!new), P(!new)>(isa: Isa<M>, lay: Layout<M>, ram0: seq<Words>, p: D.Policy<P>, s: State<M>, d: D.State<P>, ids: seq<nat>, next: nat)
      returns (x: Inputs)
    requires Good(isa, lay, ram0, p, s, d, ids, next)
    ensures Nearer(isa, lay, p, s, d, ids, next, x)
  {
    hide Good, Nearer, TakesTrap;
    if TakesTrap(s) || !Concerned(s, d) {
      x := UnconcernedNearer(isa, lay, ram0, p, s, d, ids, next);
    } else if s.w.phases[0].Waiting? {
      x := WaitingMemory(isa, lay, ram0, p, s, d, ids, next);
    } else if s.w.phases[0].Executing? {
      x := ExecutingMemory(isa, lay, ram0, p, s, d, ids, next);
    } else if s.w.ops[0].instr.cls == Class.Store {
      x := StoreWaits(isa, lay, ram0, p, s, d, ids, next);
    } else {
      x := LoadCommits(isa, lay, ram0, p, s, d, ids, next);
    }
  }

  /** A finished load at the head does not care about the buffer. */
  lemma LoadCommits<M(!new), P(!new)>(isa: Isa<M>, lay: Layout<M>, ram0: seq<Words>, p: D.Policy<P>, s: State<M>, d: D.State<P>, ids: seq<nat>, next: nat)
      returns (x: Inputs)
    requires Good(isa, lay, ram0, p, s, d, ids, next) && !TakesTrap(s)
    requires |s.w.ops| > 0 && |s.w.phases| > 0 && s.w.ops[0].instr.cls != Class.Store && s.w.phases[0].Done?
    ensures Nearer(isa, lay, p, s, d, ids, next, x)
  {
    hide Inv, Allowed, Next, Wired, FaultsAreDone, Joined, DI.Inv, Nearer;
    x := IDLE.(storeBufferFull := Full(d));
    IdleIsQuiet(isa, s, Full(d));
    IdleIsWired(isa, lay, s, d, ids);
    CoreLiveness.CommitsOneOrTwo(isa, s, x);
    CoreLiveness.LogGrows(isa, s, x);
    BackEndNearer(isa, lay, ram0, p, s, d, ids, next, x);
  }

  // ---- runs ----

  lemma AlwaysGood<M(!new), P(!new)>(isa: Isa<M>, lay: Layout<M>, p: D.Policy<P>, r: Run<M, P>, n: nat)
    requires IsRun(isa, lay, p, r) && n < |r.states|
    ensures |r.states| == |r.inputs| + 1 == |r.datas| == |r.ids| == |r.nexts|
    ensures Good(isa, lay, r.datas[0].ram, p, r.states[n], r.datas[n], r.ids[n], r.nexts[n])
  {
    hide IsRun, Inv, DI.Inv, FaultsAreDone, DL.Sized, LoadMatches, OutMatches, QueueMatches, MemoryMatches, WaitingAreNew, AllUnderWay;
    RunSizes(isa, lay, p, r);
    AlwaysJoined(isa, lay, p, r, n);
    CoreOf(isa, lay, p, r);
    FaultsNeverWait(isa, r.states, r.inputs, n);
    CoreTheorems.InvShape(isa, r.states[n]);
    DataSideRuns(isa, lay, p, r);
    DL.AlwaysSized(p, r.datas, r.dataInputs, n);
  }

  /** One more cycle. */
  function Extend<M, P>(isa: Isa<M>, p: D.Policy<P>, r: Run<M, P>, x: Inputs, dx: D.Inputs): Run<M, P>
    requires |r.states| == |r.inputs| + 1 == |r.datas| == |r.ids| == |r.nexts|
    requires Allowed(isa, r.states[|r.inputs|], x) && D.Allowed(r.datas[|r.inputs|], dx)
  {
    var n := |r.inputs|;
    Run(r.states + [Next(isa, r.states[n], x)], r.inputs + [x], r.datas + [D.Next(p, r.datas[n], dx)], r.dataInputs + [dx],
        r.ids + [NextIds(r.states[n], x, r.ids[n], r.nexts[n])], r.nexts + [NextFree(r.states[n], x, r.nexts[n])], r.devices + [ZERO])
  }

  lemma ExtendIsRun<M(!new), P(!new)>(isa: Isa<M>, lay: Layout<M>, p: D.Policy<P>, r: Run<M, P>, x: Inputs, dx: D.Inputs)
    requires IsRun(isa, lay, p, r) && |r.states| == |r.inputs| + 1 == |r.datas| == |r.ids| == |r.nexts|
    requires Allowed(isa, r.states[|r.inputs|], x) && D.Allowed(r.datas[|r.inputs|], dx)
    requires Wired(isa, lay, r.states[|r.inputs|], r.datas[|r.inputs|], r.ids[|r.inputs|], x, ZERO)
    requires dx == DataInputs(isa, lay, r.states[|r.inputs|], r.datas[|r.inputs|], r.ids[|r.inputs|], x, ZERO)
    ensures IsRun(isa, lay, p, Extend(isa, p, r, x, dx))
  {
    hide Allowed, Next, D.Allowed, D.Next, Wired, DataInputs, NextIds, NextFree, CoreTheorems.IsRun, Conforms, MemoryMatches, Decodes;
    var n, e := |r.inputs|, Extend(isa, p, r, x, dx);
    CoreLiveness.RunExtends(isa, r.states, r.inputs, x);
    forall i | 0 <= i < |e.inputs|
      ensures IsStep(isa, lay, p, e, i)
    {
      if i < n {
        assert IsStep(isa, lay, p, r, i);
      }
    }
  }

  /** The machine and its data side together are never stuck: every joint run, whatever is in flight, queued, buffered or
      being refilled, can be continued until another instruction retires or traps. */
  lemma {:induction false} CanAlwaysCommit<M(!new), P(!new)>(isa: Isa<M>, lay: Layout<M>, p: D.Policy<P>, r: Run<M, P>) returns (r': Run<M, P>)
    requires IsRun(isa, lay, p, r)
    ensures IsRun(isa, lay, p, r') && |r.states| == |r.inputs| + 1 && |r'.states| == |r'.inputs| + 1
    ensures r.states <= r'.states && r.inputs <= r'.inputs && r.datas <= r'.datas
    ensures r.states[|r.inputs|].log < r'.states[|r'.inputs|].log
    decreases if |r.states| == |r.inputs| + 1 == |r.datas| == |r.ids| then Rank(r.states[|r.inputs|], r.datas[|r.inputs|], r.ids[|r.inputs|]) else 0
  {
    hide IsRun, Good, Allowed, Next, D.Allowed, D.Next, Wired, DataInputs, NextIds, NextFree, Rank;
    var n := |r.inputs|;
    AlwaysGood(isa, lay, p, r, n) by { RunSizes(isa, lay, p, r); }
    var x := JointComesNearer(isa, lay, r.datas[0].ram, p, r.states[n], r.datas[n], r.ids[n], r.nexts[n]);
    var dx := DataInputs(isa, lay, r.states[n], r.datas[n], r.ids[n], x, ZERO);
    r' := Extend(isa, p, r, x, dx);
    ExtendIsRun(isa, lay, p, r, x, dx);
    CoreLiveness.LogGrows(isa, r.states[n], x);
    if !(r.states[n].log < Next(isa, r.states[n], x).log) {
      r' := CanAlwaysCommit(isa, lay, p, r');
    }
  }
}
