/** The instruction that blocks commit cannot be kept off the buses for long. */
module Progress {
  import opened Prelude
  import opened PowersOfTwo
  import opened OooPackage
  import opened Isa
  import opened Dataflow
  import opened Core
  import opened CoreInvariant
  import CoreAdvance
  import CoreFetch
  import CoreTheorems
  import CdbArbiter

  /** Age a holds a finished instruction. */
  predicate DoneAt(w: Window, a: nat) {
    a < |w.phases| && w.phases[a].Done?
  }

  /** The done vector of the sixteen ages, oldest first, read as a binary number. */
  function DoneCode(w: Window, n: nat): nat {
    if n == 0 then 0 else 2 * DoneCode(w, n - 1) + if DoneAt(w, n - 1) then 1 else 0
  }

  /** Lexicographically later: at some age finished now and not before, and nothing older was lost. */
  ghost predicate Rises(w: Window, w': Window, k: nat) {
    && !DoneAt(w, k) && DoneAt(w', k) && k < ROB_SIZE
    && forall a :: 0 <= a < k && DoneAt(w, a) ==> DoneAt(w', a)
  }

  lemma {:induction false} PrefixKeeps(w: Window, w': Window, n: nat)
    requires forall a :: 0 <= a < n && DoneAt(w, a) ==> DoneAt(w', a)
    ensures DoneCode(w, n) <= DoneCode(w', n)
  {
    hide DoneAt;
    if n > 0 {
      PrefixKeeps(w, w', n - 1);
    }
  }

  /** A lexicographic rise is a rise of the number, whatever happens to younger ages. */
  lemma {:induction false} RiseRaisesCode(w: Window, w': Window, k: nat, n: nat)
    requires Rises(w, w', k) && k < n
    ensures DoneCode(w, n) < DoneCode(w', n)
  {
    hide DoneAt;
    if n == k + 1 {
      PrefixKeeps(w, w', k);
    } else {
      RiseRaisesCode(w, w', k, n - 1);
    }
  }

  /** While the head is unfinished, the number is below 2^(n-1). */
  lemma {:induction false} CodeBounded(w: Window, n: nat)
    requires n > 0 && !DoneAt(w, 0)
    ensures DoneCode(w, n) < Pow2(n - 1)
  {
    if n > 1 {
      CodeBounded(w, n - 1);
    } else {
      assert DoneCode(w, 0) == 0;
    }
  }

  // ---- refusals ----

  /** The oldest instruction has a result and asks the arbiter for a bus. */
  ghost predicate HeadRequests<M>(s: State<M>) {
    |s.w.ops| > 0 && |s.w.phases| > 0 && s.w.phases[0].Executing? && s.w.ops[0].instr.cls in {Load, Store, Mul, LongLatency}
  }

  /** It asks in a cycle in which every bus is its owner's. */
  ghost predicate HeadRefused<M>(s: State<M>) {
    HeadRequests(s) && s.alu0.Some? && s.alu1.Some? && s.br.Some?
  }

  /** That is the only way it is refused: whatever else requests, the arbiter grants the head any free bus. */
  lemma ArbiterRefusesOnlyThen<M>(s: State<M>, reqs: seq<Option<Tag>>, free: CdbArbiter.Free, bus: seq<Option<nat>>, grant: seq<bool>, i: nat)
    requires HeadRequests(s) && free == [s.alu0.None?, s.alu1.None?, s.br.None?]
    requires CdbArbiter.Arbitrated(reqs, s.w.head, free, bus, grant)
    requires i < |reqs| && reqs[i] == Some(s.w.head) && (forall k :: 0 <= k < |reqs| && k != i ==> reqs[k] != Some(s.w.head))
    requires !grant[i]
    ensures HeadRefused(s)
  {
    hide CdbArbiter.Arbitrated;
    ArbitratedSize(reqs, s.w.head, free, bus, grant);
    CdbArbiter.HeadRefusedMeansNoneFree(reqs, s.w.head, free, bus, grant, i);
  }

  lemma ArbitratedSize(reqs: seq<Option<Tag>>, head: Tag, free: CdbArbiter.Free, bus: seq<Option<nat>>, grant: seq<bool>)
    requires CdbArbiter.Arbitrated(reqs, head, free, bus, grant)
    ensures |grant| == |reqs|
  {
  }

  /** With every bus owned, what the buses carry is the three owners' results. */
  lemma OnlyOwnersBroadcast<M>(isa: Isa<M>, s: State<M>, x: Inputs)
    requires Inv(isa, s) && Allowed(isa, s, x) && HeadRefused(s)
    ensures !TakesTrap(s) && !TakesInterrupt(s, x) && RetireCount(s, x.storeBufferFull) == 0
    ensures !BusesOf(FrontHalf(isa, s, x), x).Carries(s.w.head)
  {
    hide InOrder, Outcomes, Operands, Renaming, Stores, Histories, CanDispatchMany, Lookup, Mispredicted, KeepOlder, ReleaseYounger;
    AgeOfTagAt(s.w.head, 0);
    TagAtZero(s.w.head);
    OwnersAreNotHead(s);
    FrontKeepsOwners(isa, s, x);
    CoreTheorems.FrontHalfKeepsInv(isa, s, x);
    var s1 := FrontHalf(isa, s, x);
    HeadNotOnBus(s1, x, s.w.head);
  }

  lemma OwnersAreNotHead<M>(s: State<M>)
    requires s.Shape() && Units(s) && HeadRequests(s)
    ensures s.alu0 != Some(s.w.head) && s.alu1 != Some(s.w.head) && s.br != Some(s.w.head)
  {
    AgeOfTagAt(s.w.head, 0);
    TagAtZero(s.w.head);
  }

  lemma HeadNotOnBus<M>(s: State<M>, x: Inputs, t: Tag)
    requires s.alu0 != Some(t) && s.alu1 != Some(t) && s.br != Some(t) && x.bus0.None? && x.bus1.None? && x.bus2.None?
    ensures !BusesOf(s, x).Carries(t)
  {
  }

  lemma FrontKeepsOwners<M>(isa: Isa<M>, s: State<M>, x: Inputs)
    requires Inv(isa, s) && Allowed(isa, s, x) && HeadRefused(s) && !TakesTrap(s) && !TakesInterrupt(s, x)
    ensures var s1 := FrontHalf(isa, s, x);
            && (s1.alu0.Some? ==> s1.alu0 == s.alu0) && (s1.alu1.Some? ==> s1.alu1 == s.alu1) && (s1.br.Some? ==> s1.br == s.br)
            && x.bus0.None? && x.bus1.None? && x.bus2.None?
            && (!Recovers(s) ==> s1.alu0 == s.alu0)
  {
    hide InOrder, Outcomes, Operands, Renaming, Stores, Histories, Lookup, Mispredicted, KeepOlder, ReleaseYounger, Execute;
  }

  /** The front half keeps every finished instruction up to a recovering branch, and finishes that branch. */
  lemma FrontRises<M>(isa: Isa<M>, s: State<M>, x: Inputs)
    requires Inv(isa, s) && Allowed(isa, s, x) && !TakesTrap(s) && !TakesInterrupt(s, x)
    ensures var w' := FrontHalf(isa, s, x).w;
            if Recovers(s) then Rises(s.w, w', s.w.IndexOf(s.br.value))
            else |s.w.ops| <= |w'.ops| && w'.head == s.w.head && forall a :: 0 <= a < |s.w.ops| ==> w'.phases[a] == s.w.phases[a] && w'.ops[a] == s.w.ops[a]
  {
    hide InOrder, Outcomes, Operands, Renaming, Stores, Histories, Lookup, Mispredicted, KeepOlder, ReleaseYounger, Execute, CanAdvance, FreeCkpt;
  }

  lemma AdvanceKeepsDone<M>(isa: Isa<M>, s0: State<M>, s: State<M>, x: Inputs, a: nat)
    requires s.Shape() && CanAdvance(s0, s, x) && DoneAt(s.w, a)
    ensures DoneAt(Advance(isa, s, x).w, a)
  {
    hide CanAdvance, Advance, AdvanceAll;
    CoreAdvance.PhaseMoves(isa, s0, s, x, a);
  }

  /** One refused cycle: the done vector rises lexicographically, even through a recovery, and the head is
      still there, still asking. */
  lemma RefusalRaises<M>(isa: Isa<M>, s: State<M>, x: Inputs)
    requires Decodes(isa) && Inv(isa, s) && Allowed(isa, s, x) && HeadRefused(s)
    ensures DoneCode(s.w, ROB_SIZE) < DoneCode(Next(isa, s, x).w, ROB_SIZE)
    ensures HeadRequests(Next(isa, s, x)) && Next(isa, s, x).w.head == s.w.head
  {
    hide Inv, Allowed, CanAdvance, Advance, FrontHalf, Fetch, DoneCode, HeadRefused;
    OnlyOwnersBroadcast(isa, s, x);
    FrontMeans(isa, s, x);
    var s1 := FrontHalf(isa, s, x);
    var s2 := Advance(isa, s1, x);
    CoreFetch.FetchCases(isa, s2, x.fetch) by { ShapeOfInv(isa, s1); }
    AdvanceFields(isa, s, s1, x);
    assert Next(isa, s, x).w == s2.w;
    var k := FrontOrAluRises(isa, s, x);
    RiseRaisesCode(s.w, s2.w, k, ROB_SIZE);
  }

  lemma ShapeOfInv<M>(isa: Isa<M>, s: State<M>)
    requires Inv(isa, s)
    ensures s.Shape() && Units(s)
  {
  }

  lemma FrontMeans<M>(isa: Isa<M>, s: State<M>, x: Inputs)
    requires Inv(isa, s) && Allowed(isa, s, x) && HeadRefused(s) && !TakesTrap(s) && !TakesInterrupt(s, x)
    ensures var s1 := FrontHalf(isa, s, x);
            && Inv(isa, s1) && s1.Shape() && Units(s1) && CanAdvance(s, s1, x) && !Recovers(s1)
            && s1.w.head == s.w.head && HeadRequests(s1)
  {
    hide InOrder, Outcomes, Operands, Renaming, Stores, Histories, Lookup, Mispredicted, KeepOlder, ReleaseYounger, Execute, CanAdvance, FreeCkpt;
    CoreTheorems.FrontHalfKeepsInv(isa, s, x);
  }

  lemma AdvanceFields<M>(isa: Isa<M>, s0: State<M>, s: State<M>, x: Inputs)
    requires s.Shape() && CanAdvance(s0, s, x) && HeadRequests(s) && !BusesOf(s, x).Carries(s.w.head)
    ensures HeadRequests(Advance(isa, s, x)) && Advance(isa, s, x).w.head == s.w.head
  {
    hide CanAdvance, AdvanceAll, BusesOf;
    TagAtZero(s.w.head);
    CoreAdvance.PhaseMoves(isa, s0, s, x, 0);
  }

  /** What makes the vector rise: the recovering branch, or the instruction in the first ALU. */
  lemma FrontOrAluRises<M>(isa: Isa<M>, s: State<M>, x: Inputs) returns (k: nat)
    requires Inv(isa, s) && Allowed(isa, s, x) && HeadRefused(s) && !TakesTrap(s) && !TakesInterrupt(s, x)
    ensures Rises(s.w, Advance(isa, FrontHalf(isa, s, x), x).w, k)
  {
    hide Inv, Allowed, CanAdvance, Advance, FrontHalf;
    var s1 := FrontHalf(isa, s, x);
    var s2 := Advance(isa, s1, x);
    ShapeOfInv(isa, s);
    FrontMeans(isa, s, x);
    FrontRises(isa, s, x);
    FrontKeepsOwners(isa, s, x);
    forall a | 0 <= a && DoneAt(s1.w, a)
      ensures DoneAt(s2.w, a)
    {
      AdvanceKeepsDone(isa, s, s1, x, a);
    }
    if Recovers(s) {
      k := s.w.IndexOf(s.br.value);
      assert DoneAt(s2.w, k);
    } else {
      k := s.w.IndexOf(s.alu0.value);
      CoreAdvance.OwnedFinishes(isa, s, s1, x, k);
      assert !DoneAt(s.w, k);
    }
  }

  // ---- runs ----

  lemma {:induction false} RefusalsAddUp<M>(isa: Isa<M>, states: seq<State<M>>, inputs: seq<Inputs>, m: nat, n: nat)
    requires Decodes(isa) && CoreTheorems.IsRun(isa, states, inputs) && m < n <= |inputs|
    requires forall i :: m <= i < n ==> HeadRefused(states[i])
    ensures n - m <= DoneCode(states[n].w, ROB_SIZE) && HeadRequests(states[n])
    decreases n
  {
    hide Inv, CoreTheorems.IsRun, Allowed, Next, DoneCode, HeadRefused, HeadRequests;
    if m < n - 1 {
      RefusalsAddUp(isa, states, inputs, m, n - 1);
    }
    CoreTheorems.RunStep(isa, states, inputs, n - 1);
    CoreTheorems.Reachable(isa, states, inputs, n - 1);
    RefusalRaises(isa, states[n - 1], inputs[n - 1]);
  }

  /** In every run, the head's finished result is kept off the buses for fewer than 2^15 cycles in a row, even
      if branches recover in between: arbitration never blocks commit forever. */
  lemma RefusalsAreBounded<M>(isa: Isa<M>, states: seq<State<M>>, inputs: seq<Inputs>, m: nat, n: nat)
    requires Decodes(isa) && CoreTheorems.IsRun(isa, states, inputs) && m <= n <= |inputs|
    requires forall i :: m <= i < n ==> HeadRefused(states[i])
    ensures n - m < 0x8000
  {
    hide Inv, CoreTheorems.IsRun, Allowed, Next, DoneCode, HeadRefused, Pow2;
    if m < n {
      CoreTheorems.RunStep(isa, states, inputs, n - 1);
      RefusalsAddUp(isa, states, inputs, m, n);
      CodeBounded(states[n].w, ROB_SIZE);
      PowFifteen();
    }
  }

  lemma PowFifteen()
    ensures Pow2(15) == 0x8000
  {
    assert Pow2(5) == 32;
    assert Pow2(10) == 1024;
  }
}
