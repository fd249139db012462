/** What one clock edge does to one instruction in flight: it moves up by the number of instructions that commit,
    and is otherwise as the front half left it, advanced. */
module CoreCycle {
  import opened Prelude
  import opened OooPackage
  import opened Isa
  import opened Wakeup
  import opened Dataflow
  import opened Core
  import opened CoreInvariant
  import opened CoreTable
  import CoreBuffer

  lemma RetireWindow<M>(isa: Isa<M>, s: State<M>, n: nat)
    requires s.Shape() && n <= 2 && n <= |s.w.ops| && forall i :: 0 <= i < n ==> Completed(s, i)
    ensures RetireMany(isa, s, n).w == Window(TagAt(s.w.head, n), s.w.ops[n..], s.w.phases[n..])
  {
    hide WriteReg;
    TagAtZero(s.w.head);
    if n == 2 {
      TagAtAfterRetire(s.w.head, 1, 1);
    }
  }

  /** The window after a cycle that does not flush. */
  lemma CycleWindow<M>(isa: Isa<M>, s: State<M>, x: Inputs)
    requires Inv(isa, s) && Allowed(isa, s, x) && !Flushes(s, x)
    ensures var n, s1, w' := RetireCount(s, x.storeBufferFull), FrontHalf(isa, s, x), Next(isa, s, x).w;
            && s.Shape() && s1.Shape() && n <= |s1.w.ops| && s1.w.head == s.w.head && w'.head == TagAt(s.w.head, n)
            && |w'.ops| == |w'.phases| == |s1.w.ops| - n
            && (forall i :: n <= i < |s1.w.ops| ==> w'.ops[i - n] == s1.w.ops[i] && w'.phases[i - n] == AdvanceOne(isa, s1, x, i))
  {
    hide Inv, Allowed, FrontHalf, AdvanceOne, RetireCount, RetireMany, Fetch, CanAdvance;
    CoreBuffer.FrontFacts(isa, s, x);
    CoreBuffer.FrontKeepsCompleted(isa, s, x);
    CoreBuffer.NextWindow(isa, s, x);
    RetireWindow(isa, Advance(isa, FrontHalf(isa, s, x), x), RetireCount(s, x.storeBufferFull));
  }

  /** Tags keep naming the same instructions. */
  lemma TagMoves(head: Tag, n: nat, i: nat)
    requires n <= i < ROB_SIZE
    ensures Age(TagAt(head, i), TagAt(head, n)) == i - n && TagAt(TagAt(head, n), i - n) == TagAt(head, i)
  {
    AgeOfTagAt(head, i);
    AgeAfterRetire(TagAt(head, i), head, n);
    TagAtAfterRetire(head, n, i - n);
  }

  /** Nothing that is not finished commits. */
  lemma UnfinishedStays<M>(s: State<M>, full: bool, i: nat)
    requires i < |s.w.phases| && !s.w.phases[i].Done?
    ensures RetireCount(s, full) <= i
  {
  }

  predicate OnBus(x: Inputs, t: Tag) {
    x.bus0 == Some(t) || x.bus1 == Some(t) || x.bus2 == Some(t)
  }

  /** A bus is granted only when its owner has no result. */
  lemma BusFree<M>(isa: Isa<M>, s: State<M>, x: Inputs)
    requires Allowed(isa, s, x) && !Flushes(s, x)
    ensures (x.bus0.Some? ==> s.alu0.None?) && (x.bus1.Some? ==> s.alu1.None?) && (x.bus2.Some? ==> s.br.None?)
  {
    hide CanDispatchMany, DispatchMany, Recover, Mispredicted;
  }

  /** Instructions of the shared units and of the load/store unit. */
  predicate IsShared(op: Op) {
    op.instr.cls != Alu && op.instr.cls != Branch
  }

  /** Their results are on a bus exactly if one is granted to them. */
  lemma SharedOnBus<M>(isa: Isa<M>, s: State<M>, x: Inputs, i: nat)
    requires Inv(isa, s) && Allowed(isa, s, x) && !Flushes(s, x)
    requires i < |s.w.ops| && i < |s.w.phases| && s.w.phases[i].Executing? && IsShared(s.w.ops[i])
    ensures BusesOf(s, x).Carries(s.w.TagOf(i)) <==> OnBus(x, s.w.TagOf(i))
  {
    hide Outcomes, Operands, Renaming, Stores, Histories, InOrder, Mispredicted, CanDispatchMany, DispatchMany, Recover;
    AgeOfTagAt(s.w.head, i);
    BusFree(isa, s, x);
  }

  /** A shared unit's instruction that was executing goes on, or finishes because it got a bus. */
  lemma SharedMoves<M>(isa: Isa<M>, s: State<M>, x: Inputs, i: nat)
    requires Inv(isa, s) && Allowed(isa, s, x) && !Flushes(s, x)
    requires i < |s.w.ops| && i < |s.w.phases| && s.w.phases[i].Executing? && IsShared(s.w.ops[i])
    requires Recovers(s) && s.br.Some? ==> i <= s.w.IndexOf(s.br.value)
    ensures var n, w', p := RetireCount(s, x.storeBufferFull), Next(isa, s, x).w, s.w.phases[i];
            && n <= i && i - n < |w'.ops| && i - n < |w'.phases|
            && w'.ops[i - n] == s.w.ops[i] && w'.TagOf(i - n) == s.w.TagOf(i) && w'.IndexOf(s.w.TagOf(i)) == i - n
            && w'.phases[i - n] == if OnBus(x, s.w.TagOf(i)) then Done(p.out) else p
  {
    hide Inv, Allowed, FrontHalf, AdvanceOne, BusesOf, RetireCount, Next, Recovers, OnBus;
    NotTheBranch(isa, s, i);
    CoreBuffer.FrontFacts(isa, s, x);
    UnfinishedStays(s, x.storeBufferFull, i);
    CycleWindow(isa, s, x);
    TagMoves(s.w.head, RetireCount(s, x.storeBufferFull), i);
    CoreBuffer.SameBuses(isa, s, x, i);
    SharedOnBus(isa, s, x, i);
    ExecutingMoves(isa, FrontHalf(isa, s, x), x, i);
  }

  lemma NotTheBranch<M>(isa: Isa<M>, s: State<M>, i: nat)
    requires Inv(isa, s) && i < |s.w.ops| && IsShared(s.w.ops[i])
    ensures s.Shape() && (Recovers(s) ==> s.br.Some? && i != s.w.IndexOf(s.br.value))
  {
    hide Outcomes, Operands, Renaming, Stores, Histories, InOrder, Mispredicted;
  }

  lemma ExecutingMoves<M>(isa: Isa<M>, s: State<M>, x: Inputs, i: nat)
    requires s.Shape() && i < |s.w.ops| && s.w.phases[i].Executing?
    ensures AdvanceOne(isa, s, x, i) == if BusesOf(s, x).Carries(s.w.TagOf(i)) then Done(s.w.phases[i].out) else s.w.phases[i]
  {
    hide Execute, BusesOf, WakesOf, AllWakes, Resolve;
  }
}
