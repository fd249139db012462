/** Why the oldest instruction can always go on: it waits for nothing, and some cycle issues it, grants it a bus or
    commits it. */
module CoreLivenessSteps {
  import opened Prelude
  import opened OooPackage
  import opened Isa
  import opened Wakeup
  import opened Dataflow
  import opened Core
  import opened CoreInvariant
  import opened CoreTable
  import opened CoreCycle
  import CoreBuffer
  import CoreStations
  import CoreTheorems
  import Progress
  import RAT = RenameTable
  import RS = ReservationStation

  // ---- faults never wait ----

  ghost predicate FaultsAreDone(w: Window) {
    forall i :: 0 <= i < |w.ops| && i < |w.phases| && w.ops[i].instr.cls == Fault ==> w.phases[i].Done?
  }

  lemma FaultsStep<M>(isa: Isa<M>, s: State<M>, x: Inputs)
    requires Inv(isa, s) && Allowed(isa, s, x) && FaultsAreDone(s.w)
    ensures FaultsAreDone(Next(isa, s, x).w)
  {
    hide Inv, Allowed, Next, RetireCount, FrontHalf, AdvanceOne;
    if Flushes(s, x) {
      CoreBuffer.FlushWindow(isa, s, x);
    } else {
      CycleWindow(isa, s, x);
      var n, s1, w' := RetireCount(s, x.storeBufferFull), FrontHalf(isa, s, x), Next(isa, s, x).w;
      forall j | 0 <= j < |w'.ops| && j < |w'.phases| && w'.ops[j].instr.cls == Fault
        ensures w'.phases[j].Done?
      {
        var i := j + n;
        assert w'.ops[i - n] == s1.w.ops[i] && w'.phases[i - n] == AdvanceOne(isa, s1, x, i);
        FaultStays(isa, s, x, i);
      }
    }
  }

  lemma FaultStays<M>(isa: Isa<M>, s: State<M>, x: Inputs, i: nat)
    requires Inv(isa, s) && Allowed(isa, s, x) && !Flushes(s, x) && FaultsAreDone(s.w)
    requires i < |FrontHalf(isa, s, x).w.ops| && i < |FrontHalf(isa, s, x).w.phases| && FrontHalf(isa, s, x).w.ops[i].instr.cls == Fault
    ensures AdvanceOne(isa, FrontHalf(isa, s, x), x, i).Done?
  {
    hide Inv, Allowed, FrontHalf, Mispredicted, CoreBuffer.NewEntry, CoreBuffer.EntryOf, Execute, BusesOf, AllWakes, WakesOf, Resolve;
    CoreBuffer.FrontFacts(isa, s, x);
    if i >= |s.w.ops| {
      CoreBuffer.NewEntryIs(isa, s, x, i - |s.w.ops|);
    }
  }

  lemma {:induction false} FaultsNeverWait<M>(isa: Isa<M>, states: seq<State<M>>, inputs: seq<Inputs>, n: nat)
    requires Decodes(isa) && CoreTheorems.IsRun(isa, states, inputs) && n < |states|
    ensures FaultsAreDone(states[n].w)
  {
    hide Inv, Allowed, Next, FaultsAreDone, CoreTheorems.IsRun, Decodes;
    CoreTheorems.RunLength(isa, states, inputs);
    if n == 0 {
      NoFaultsAtFirst(isa, states, inputs);
    } else {
      FaultsNeverWait(isa, states, inputs, n - 1);
      CoreTheorems.Reachable(isa, states, inputs, n - 1);
      CoreTheorems.RunStep(isa, states, inputs, n - 1);
      FaultsStep(isa, states[n - 1], inputs[n - 1]);
    }
  }

  lemma NoFaultsAtFirst<M>(isa: Isa<M>, states: seq<State<M>>, inputs: seq<Inputs>)
    requires CoreTheorems.IsRun(isa, states, inputs)
    ensures |states| > 0 && FaultsAreDone(states[0].w)
  {
    hide Allowed, Next;
  }

  // ---- the oldest instruction ----

  /** It never waits for an operand: everything it could wait for has committed. */
  lemma HeadIsReady<M>(isa: Isa<M>, s: State<M>)
    requires Inv(isa, s) && |s.w.ops| > 0 && |s.w.phases| > 0 && s.w.phases[0].Waiting?
    ensures s.w.phases[0].op1.ready && s.w.phases[0].op2.ready
  {
    hide InOrder, Outcomes, Stores, Histories, Renaming, Units;
  }

  function Stage(p: Phase): nat {
    if p.Waiting? then 0 else if p.Executing? then 1 else 2
  }

  const IDLE := CoreTheorems.IDLE

  /** The cycle in which only the oldest instruction is selected by its station. */
  function Selecting(c: Class): Inputs {
    IDLE.(issue := match c
          case Alu => Issue(Some(0), None, None, None, {})
          case Branch => Issue(None, None, Some(0), None, {})
          case Load => Issue(None, None, None, Some(0), {})
          case Store => Issue(None, None, None, Some(0), {})
          case _ => Issue(None, None, None, None, {0}))
  }

  lemma SelectingIsAllowed<M>(isa: Isa<M>, s: State<M>)
    requires Inv(isa, s) && s.Shape() && |s.w.ops| > 0 && s.w.phases[0].Waiting? && s.w.ops[0].instr.cls != Fault
    requires Recovers(s) ==> !s.w.ops[0].IsMem()
    ensures var x := Selecting(s.w.ops[0].instr.cls); Allowed(isa, s, x) && !Flushes(s, x) && x.issue.Selects(0) && !x.storeBufferFull
  {
    hide Inv, Allowed, CoreStations.Station, Mispredicted;
    var c := s.w.ops[0].instr.cls;
    var x := Selecting(c);
    HeadIsReady(isa, s);
    CoreTheorems.IdleIsAllowed(isa, s);
    assert x.(issue := CoreStations.NO_ISSUE) == IDLE;
    if c == Load || c == Store {
      HeadIsOldest(s);
    }
    CoreStations.SelectionIsAllowed(isa, s, x);
  }

  lemma HeadIsOldest<M>(s: State<M>)
    requires s.Shape() && CoreStations.WaitsIn(s.w, 0, {Class.Load, Class.Store})
    ensures RS.IsOldest(CoreStations.Station(s.w, {Class.Load, Class.Store}), CoreStations.EntryAt(s.w, 0), s.w.head)
  {
    TagAtZero(s.w.head);
    AgeOfTagAt(s.w.head, 0);
  }

  lemma WaitingHeadMoves<M>(isa: Isa<M>, s: State<M>)
    requires Inv(isa, s) && s.Shape() && |s.w.ops| > 0 && s.w.phases[0].Waiting? && s.w.ops[0].instr.cls != Fault
    requires Recovers(s) ==> !s.w.ops[0].IsMem()
    ensures var x := Selecting(s.w.ops[0].instr.cls);
            Allowed(isa, s, x) && |Next(isa, s, x).w.phases| > 0 && Next(isa, s, x).w.head == s.w.head && Next(isa, s, x).w.phases[0].Executing?
  {
    hide Inv, Allowed, Next, RetireCount, FrontHalf, AdvanceOne, Selecting, Mispredicted;
    var x := Selecting(s.w.ops[0].instr.cls);
    SelectingIsAllowed(isa, s);
    UnfinishedStays(s, x.storeBufferFull, 0);
    CycleWindow(isa, s, x);
    CoreBuffer.FrontFacts(isa, s, x);
    TagAtZero(s.w.head);
    SelectedExecutes(isa, FrontHalf(isa, s, x), x, 0);
  }

  lemma SelectedExecutes<M>(isa: Isa<M>, s: State<M>, x: Inputs, i: nat)
    requires s.Shape() && i < |s.w.ops| && s.w.phases[i].Waiting? && x.issue.Selects(i)
    ensures AdvanceOne(isa, s, x, i).Executing?
  {
    hide Execute, BusesOf, WakesOf, AllWakes, Resolve;
  }

  /** A bus for the oldest instruction's result, if its owner has none. */
  function Granting<M>(s: State<M>): Inputs {
    if s.alu0.None? then IDLE.(bus0 := Some(s.w.head))
    else if s.alu1.None? then IDLE.(bus1 := Some(s.w.head))
    else if s.br.None? then IDLE.(bus2 := Some(s.w.head))
    else IDLE
  }

  lemma GrantingIsAllowed<M>(isa: Isa<M>, s: State<M>)
    requires Inv(isa, s) && s.Shape() && |s.w.ops| > 0 && s.w.phases[0].Executing? && s.w.ops[0].instr.cls != Fault
    requires IsShared(s.w.ops[0])
    ensures var x := Granting(s); Allowed(isa, s, x) && !Flushes(s, x) && !x.storeBufferFull
  {
    hide Inv, Recover, Mispredicted;
    AgeOfTagAt(s.w.head, 0);
    TagAtZero(s.w.head);
    CoreTheorems.IdleIsAllowed(isa, s);
    CoreBuffer.FrontFacts(isa, s, IDLE);
    NotTheBranch(isa, s, 0);
  }

  lemma SharedHeadMoves<M>(isa: Isa<M>, s: State<M>)
    requires Inv(isa, s) && s.Shape() && |s.w.ops| > 0 && s.w.phases[0].Executing? && s.w.ops[0].instr.cls != Fault
    requires IsShared(s.w.ops[0]) && !Progress.HeadRefused(s)
    ensures var x := Granting(s);
            Allowed(isa, s, x) && |Next(isa, s, x).w.phases| > 0 && Next(isa, s, x).w.head == s.w.head && Next(isa, s, x).w.phases[0].Done?
  {
    hide Inv, Allowed, Next, RetireCount, Mispredicted;
    var x := Granting(s);
    GrantingIsAllowed(isa, s);
    TagAtZero(s.w.head);
    NoneRetire(s, x.storeBufferFull);
    SharedMoves(isa, s, x, 0);
    SameHead(isa, s, x);
  }

  lemma NoneRetire<M>(s: State<M>, full: bool)
    requires |s.w.phases| > 0 && !s.w.phases[0].Done?
    ensures RetireCount(s, full) == 0
  {
  }

  lemma SameHead<M>(isa: Isa<M>, s: State<M>, x: Inputs)
    requires Inv(isa, s) && Allowed(isa, s, x) && !Flushes(s, x) && RetireCount(s, x.storeBufferFull) == 0
    ensures Next(isa, s, x).w.head == s.w.head
  {
    hide Inv, Allowed, Next, RetireCount, FrontHalf, AdvanceOne;
    CycleWindow(isa, s, x);
    TagAtZero(s.w.head);
  }

  /** The ALUs' and the branch unit's results are on their own buses. */
  lemma OwnedHeadMoves<M>(isa: Isa<M>, s: State<M>)
    requires Inv(isa, s) && s.Shape() && |s.w.ops| > 0 && s.w.phases[0].Executing? && !IsShared(s.w.ops[0])
    ensures Allowed(isa, s, IDLE) && |Next(isa, s, IDLE).w.phases| > 0 && Next(isa, s, IDLE).w.head == s.w.head && Next(isa, s, IDLE).w.phases[0].Done?
  {
    hide Inv, Allowed, Next, RetireCount, FrontHalf, AdvanceOne, Mispredicted, BusesOf;
    CoreTheorems.IdleIsAllowed(isa, s);
    NoneRetire(s, false);
    CycleWindow(isa, s, IDLE);
    CoreBuffer.FrontFacts(isa, s, IDLE);
    TagAtZero(s.w.head);
    OwnerIsOnBus(isa, s);
    if Recovers(s) && s.w.IndexOf(s.br.value) == 0 {
      DoneStays(isa, FrontHalf(isa, s, IDLE), IDLE, 0);
    } else {
      CoreBuffer.SameBuses(isa, s, IDLE, 0);
      ExecutingMoves(isa, FrontHalf(isa, s, IDLE), IDLE, 0);
    }
  }

  lemma DoneStays<M>(isa: Isa<M>, s: State<M>, x: Inputs, i: nat)
    requires s.Shape() && i < |s.w.ops| && s.w.phases[i].Done?
    ensures AdvanceOne(isa, s, x, i) == s.w.phases[i]
  {
    hide Execute, BusesOf, WakesOf, AllWakes, Resolve;
  }

  lemma OwnerIsOnBus<M>(isa: Isa<M>, s: State<M>)
    requires Inv(isa, s) && s.Shape() && |s.w.ops| > 0 && s.w.phases[0].Executing? && !IsShared(s.w.ops[0])
    ensures BusesOf(s, IDLE).Carries(s.w.TagOf(0))
  {
    hide InOrder, Outcomes, Operands, Stores, Histories, Renaming;
    AgeOfTagAt(s.w.head, 0);
  }

  lemma DoneHeadCommits<M>(isa: Isa<M>, s: State<M>)
    requires Inv(isa, s) && s.Shape() && |s.w.ops| > 0 && s.w.phases[0].Done? && !TakesTrap(s)
    ensures Allowed(isa, s, IDLE) && s.log < Next(isa, s, IDLE).log
  {
    hide Inv, Allowed, FrontHalf, Advance, Mispredicted;
    CoreTheorems.IdleIsAllowed(isa, s);
    CoreTheorems.FrontHalfKeepsInv(isa, s, IDLE);
    CoreBuffer.FrontKeepsCompleted(isa, s, IDLE);
    AdvanceLog(isa, FrontHalf(isa, s, IDLE), IDLE);
    RetireLog(isa, Advance(isa, FrontHalf(isa, s, IDLE), IDLE), RetireCount(s, false));
  }

  lemma AdvanceLog<M>(isa: Isa<M>, s: State<M>, x: Inputs)
    requires s.Shape()
    ensures Advance(isa, s, x).log == s.log
  {
    hide AdvanceAll, Enqueue;
  }

  lemma RetireLog<M>(isa: Isa<M>, s: State<M>, n: nat)
    requires s.Shape() && n <= 2 && forall i :: 0 <= i < n ==> Completed(s, i)
    ensures s.log <= RetireMany(isa, s, n).log && |RetireMany(isa, s, n).log| == |s.log| + n
    ensures forall i :: |s.log| <= i < |s.log| + n ==> RetireMany(isa, s, n).log[i].Retired?
  {
    hide WriteReg, RAT.ClearAll;
  }

  lemma TrapLogs<M>(isa: Isa<M>, s: State<M>)
    requires Allowed(isa, s, IDLE) && TakesTrap(s)
    ensures s.log < Next(isa, s, IDLE).log
  {
    hide Allowed;
  }

  /** If the cycle issues from the memory queue, or grants a bus, it is to the oldest instruction, unfinished. */
  ghost predicate OnlyHead<M>(s: State<M>, x: Inputs) {
    && !x.storeBufferFull && (x.issue.mem.Some? ==> |s.w.ops| > 0 && |s.w.phases| > 0 && s.w.ops[0].IsMem() && !s.w.phases[0].Done?)
    && forall t: Tag :: OnBus(x, t) ==> |s.w.ops| > 0 && |s.w.phases| > 0 && t == s.w.head && !s.w.phases[0].Done?
  }

  /** Some cycle moves the oldest instruction one step towards commit, or commits it, or takes its trap: unless every
      bus belongs to its owner, or a branch recovers just now and the head waits in the memory queue, which stands
      still in that cycle. */
  lemma HeadMoves<M>(isa: Isa<M>, s: State<M>) returns (x: Inputs)
    requires Inv(isa, s) && FaultsAreDone(s.w) && |s.w.ops| > 0 && !Progress.HeadRefused(s)
    requires Recovers(s) && s.w.ops[0].IsMem() ==> |s.w.phases| > 0 && !s.w.phases[0].Waiting?
    ensures Allowed(isa, s, x)
    ensures var s' := Next(isa, s, x);
            || s.log < s'.log
            || (|s.w.phases| > 0 && |s'.w.phases| > 0 && s'.w.head == s.w.head && Stage(s'.w.phases[0]) == Stage(s.w.phases[0]) + 1)
    ensures OnlyHead(s, x)
  {
    hide Inv, Allowed, Next, Progress.HeadRefused, Recovers;
    CoreTheorems.InvShape(isa, s);
    if TakesTrap(s) {
      x := IDLE;
      CoreTheorems.IdleIsAllowed(isa, s);
      TrapLogs(isa, s);
    } else if s.w.phases[0].Done? {
      x := IDLE;
      DoneHeadCommits(isa, s);
    } else if s.w.phases[0].Waiting? {
      x := Selecting(s.w.ops[0].instr.cls);
      WaitingHeadMoves(isa, s);
    } else if IsShared(s.w.ops[0]) {
      x := Granting(s);
      SharedHeadMoves(isa, s);
    } else {
      x := IDLE;
      OwnedHeadMoves(isa, s);
    }
  }
}
