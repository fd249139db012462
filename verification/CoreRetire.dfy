/** Commit keeps the invariant, although every index and age moves by one, and commits exactly what the
    sequential machine does next. */
module CoreRetire {
  import opened Prelude
  import opened OooPackage
  import opened Isa
  import opened Wakeup
  import opened Dataflow
  import opened Core
  import opened CoreInvariant
  import RAT = RenameTable

  /** The window without its oldest entry. */
  function Drop(w: Window): Window
    requires |w.ops| > 0 && |w.phases| > 0
  {
    Window(TagAt(w.head, 1), w.ops[1..], w.phases[1..])
  }

  lemma DropTag(w: Window, i: nat)
    requires |w.ops| > 0 && |w.phases| > 0
    ensures Drop(w).TagOf(i) == w.TagOf(i + 1)
  {
    TagAtAfterRetire(w.head, 1, i);
  }

  lemma DropIndex(w: Window, t: Tag)
    requires |w.ops| > 0 && |w.phases| > 0 && w.IndexOf(t) >= 1
    ensures Drop(w).IndexOf(t) == w.IndexOf(t) - 1
  {
    AgeAfterRetire(t, w.head, 1);
  }

  /** What committing does, field by field. */
  lemma RetireFields<M>(isa: Isa<M>, s: State<M>)
    requires s.Shape() && Completed(s, 0) && Stores(s) && Outcomes(isa, s.Flow(), s.w)
    ensures var s' := Retire(isa, s);
            && s'.w == Drop(s.w)
            && s'.Flow() == FlowStep(isa, s.Flow(), s.w.ops[0])
            && s'.sq == LeftStores(s'.w, |s'.w.ops|)
            && s'.arch.pc == s.w.phases[0].out.next
            && s.w.phases[0].out == Spec(isa, s.Flow(), s.w.ops, 0)
            && FlowAt(isa, s.Flow(), s.w.ops, 0) == s.Flow()
            && s'.rat == RAT.ClearAll(s.rat, RAT.Rename(s.w.ops[0].instr.dst, s.w.head))
            && s'.ghrSpec == s.ghrSpec && s'.queue == s.queue && s'.fetchPc == s.fetchPc
            && s'.used == s.used && s'.owner == s.owner && s'.alu0 == s.alu0 && s'.alu1 == s.alu1 && s'.br == s.br
  {
    hide Execute, RAT.ClearAll, LeftStores;
    LeftStoresDrop(s.w, |s.w.ops|);
    if HasLeft(s.w, 0) {
      assert s.sq[0] == QueuedOf(s.w, 0);
    }
  }

  lemma DropOutcomes<M>(isa: Isa<M>, f: Flow<M>, w: Window)
    requires f.Valid() && w.Sized() && |w.ops| > 0 && Outcomes(isa, f, w)
    ensures Outcomes(isa, FlowStep(isa, f, w.ops[0]), Drop(w))
  {
    hide FlowAt, FlowStep, ExecuteIn;
    var w' := Drop(w);
    forall i | 0 <= i < |w'.phases| && !w'.phases[i].Waiting?
      ensures w'.phases[i].out == Spec(isa, FlowStep(isa, f, w.ops[0]), w'.ops, i)
    {
      FlowDrop(isa, f, w.ops, i);
      assert w.phases[i + 1].out == Spec(isa, f, w.ops, i + 1);
    }
  }

  lemma DropWrites(ops: seq<Op>, i: nat, r: Reg, j: nat)
    requires 0 < i <= |ops| && 0 < j && Writes(ops, i, r, j)
    ensures Writes(ops[1..], i - 1, r, j - 1)
  {
    forall k | j - 1 < k < i - 1
      ensures ops[1..][k].instr.dst != r
    {
      assert ops[k + 1].instr.dst != r;
    }
  }

  lemma DropOperand<M>(isa: Isa<M>, f: Flow<M>, w: Window, alu0: Option<Tag>, alu1: Option<Tag>, i: nat, r: Reg, o: Operand)
    requires f.Valid() && w.Sized() && 0 < i < |w.ops| && w.phases[0].Done?
    requires OperandOk(isa, f, w, alu0, alu1, i, r, o)
    ensures OperandOk(isa, FlowStep(isa, f, w.ops[0]), Drop(w), alu0, alu1, i - 1, r, o)
  {
    hide FlowAt, FlowStep, Writes;
    FlowDrop(isa, f, w.ops, i - 1);
    if !o.ready || o.spec {
      DropIndex(w, o.tag);
      DropWrites(w.ops, i, r, w.IndexOf(o.tag));
      WritesBefore(w.ops, i, r, w.IndexOf(o.tag));
    }
  }

  lemma WritesBefore(ops: seq<Op>, i: nat, r: Reg, j: nat)
    requires i <= |ops| && Writes(ops, i, r, j)
    ensures j < i
  {
  }

  lemma DropOperands<M>(isa: Isa<M>, f: Flow<M>, w: Window, alu0: Option<Tag>, alu1: Option<Tag>)
    requires f.Valid() && w.Sized() && |w.ops| > 0 && w.phases[0].Done? && Operands(isa, f, w, alu0, alu1)
    ensures Operands(isa, FlowStep(isa, f, w.ops[0]), Drop(w), alu0, alu1)
  {
    hide OperandOk, FlowStep;
    var f', w' := FlowStep(isa, f, w.ops[0]), Drop(w);
    forall i | 0 <= i < |w'.phases| && w'.phases[i].Waiting?
      ensures OperandOk(isa, f', w', alu0, alu1, i, w'.ops[i].instr.src1, w'.phases[i].op1)
      ensures OperandOk(isa, f', w', alu0, alu1, i, w'.ops[i].instr.src2, w'.phases[i].op2)
    {
      DropOperand(isa, f, w, alu0, alu1, i + 1, w.ops[i + 1].instr.src1, w.phases[i + 1].op1);
      DropOperand(isa, f, w, alu0, alu1, i + 1, w.ops[i + 1].instr.src2, w.phases[i + 1].op2);
    }
  }

  lemma DropOrder<M>(isa: Isa<M>, pc: Word, w: Window)
    requires w.Sized() && |w.ops| > 0 && w.phases[0].Done? && !w.phases[0].out.exception && Chain(isa, pc, w) && Packets(isa, w.ops)
    ensures Chain(isa, w.phases[0].out.next, Drop(w)) && Packets(isa, Drop(w).ops)
    ensures PcAt(isa, w.phases[0].out.next, Drop(w), |w.ops| - 1) == PcAt(isa, pc, w, |w.ops|)
  {
    var w' := Drop(w);
    forall i | 0 <= i < |w.ops|
      ensures PcAt(isa, w.phases[0].out.next, w', i) == PcAt(isa, pc, w, i + 1)
    {
    }
    forall i | 0 <= i < |w'.ops|
      ensures w'.ops[i].pc == PcAt(isa, w.phases[0].out.next, w', i)
    {
      assert w.ops[i + 1].pc == PcAt(isa, pc, w, i + 1);
    }
  }

  /** A commit clears the committing tag from a map, current or saved. */
  lemma DropAgrees(m: RAT.RegMap, w: Window, n: nat)
    requires w.Sized() && 0 < n <= |w.ops| && RAT.Agrees(m, Renames(w.head, w.ops, n))
    ensures RAT.Agrees(RAT.ClearMap(m, RAT.Rename(w.ops[0].instr.dst, w.head)), Renames(Drop(w).head, Drop(w).ops, n - 1))
  {
    hide RAT.Agrees, RAT.ClearMap, RAT.DistinctTags;
    RenamesDistinct(w.head, w.ops, n);
    RenamesDrop(w.head, w.ops, n);
    AgreesValid(m, Renames(w.head, w.ops, n));
    RAT.ClearKeepsAgreement(m, Renames(w.head, w.ops, n));
  }

  lemma AgreesValid(m: RAT.RegMap, rs: seq<RAT.Rename>)
    requires RAT.Agrees(m, rs)
    ensures m.Valid()
  {
  }

  lemma RetireCheckpoint<M>(isa: Isa<M>, s: State<M>, i: nat)
    requires s.Shape() && Completed(s, 0) && Stores(s) && Outcomes(isa, s.Flow(), s.w) && Renaming(s)
    requires i + 1 < |s.w.ops| && Unresolved(Drop(s.w), i)
    ensures HoldsCheckpoint(Retire(isa, s), i)
  {
    hide Retire, RAT.Agrees, Renames, RAT.ClearMap, Stores, Outcomes, Execute, FlowStep;
    RetireFields(isa, s);
    assert Unresolved(s.w, i + 1) && HoldsCheckpoint(s, i + 1);
    DropTag(s.w, i);
    DropAgrees(s.rat.saved[s.w.ops[i + 1].ckpt], s.w, i + 2);
  }

  lemma RetireRenaming<M>(isa: Isa<M>, s: State<M>)
    requires s.Shape() && Completed(s, 0) && Stores(s) && Outcomes(isa, s.Flow(), s.w) && Renaming(s)
    ensures Renaming(Retire(isa, s))
  {
    hide Retire, RAT.Agrees, Renames, RAT.ClearMap, HoldsCheckpoint, Stores, Outcomes, FlowStep;
    RetireFields(isa, s);
    var s' := Retire(isa, s);
    DropAgrees(s.rat.current, s.w, |s.w.ops|);
    forall i | 0 <= i < |s'.w.ops| && Unresolved(s'.w, i)
      ensures HoldsCheckpoint(s', i)
    {
      RetireCheckpoint(isa, s, i);
    }
    forall k | 0 <= k < RAT.CKPTS && s'.used[k]
      ensures Unresolved(s'.w, s'.w.IndexOf(s'.owner[k])) && s'.w.ops[s'.w.IndexOf(s'.owner[k])].ckpt == k
    {
      assert s.used[k] && Unresolved(s.w, s.w.IndexOf(s.owner[k]));
      DropIndex(s.w, s.owner[k]);
    }
  }

  lemma DropInUnit(w: Window, t: Option<Tag>, c: Class)
    requires w.Sized() && |w.ops| > 0 && w.phases[0].Done? && InUnit(w, t, c)
    ensures InUnit(Drop(w), t, c)
  {
    if t.Some? {
      DropIndex(w, t.value);
    }
  }

  lemma RetireUnits<M>(isa: Isa<M>, s: State<M>)
    requires s.Shape() && Completed(s, 0) && Stores(s) && Outcomes(isa, s.Flow(), s.w) && Units(s)
    ensures Units(Retire(isa, s))
  {
    hide Retire, InUnit, Stores, Outcomes, FlowStep;
    RetireFields(isa, s);
    var s' := Retire(isa, s);
    DropInUnit(s.w, s.alu0, Alu);
    DropInUnit(s.w, s.alu1, Alu);
    DropInUnit(s.w, s.br, Branch);
    forall i | 0 <= i < |s'.w.ops| && s'.w.phases[i].Executing?
      ensures s'.w.ops[i].instr.cls == Alu ==> s'.alu0 == Some(s'.w.TagOf(i)) || s'.alu1 == Some(s'.w.TagOf(i))
      ensures s'.w.ops[i].instr.cls == Branch ==> s'.br == Some(s'.w.TagOf(i))
    {
      DropTag(s.w, i);
      assert s.w.phases[i + 1].Executing?;
    }
  }

  lemma DropMemoryOrder(w: Window)
    requires w.Sized() && |w.ops| > 0 && MemoryOrder(w)
    ensures MemoryOrder(Drop(w))
  {
    var w' := Drop(w);
    forall i, j | 0 <= i < j < |w'.ops| && w'.ops[i].IsMem() && w'.ops[j].IsMem() && w'.phases[i].Waiting?
      ensures w'.phases[j].Waiting?
    {
      assert w.ops[i + 1].IsMem() && w.ops[j + 1].IsMem() && w.phases[i + 1].Waiting?;
      assert w.phases[j + 1].Waiting?;
    }
  }

  /** The retired history takes the committed direction in; every history is unchanged by that. */
  lemma RetireHistory<M>(isa: Isa<M>, s: State<M>, i: nat)
    requires s.Shape() && Completed(s, 0) && i < |s.w.ops|
    ensures ShiftAll(Retire(isa, s).ghrRetired, Directions(s.w.ops[1..], s.w.phases[1..], i)) ==
            ShiftAll(s.ghrRetired, Directions(s.w.ops, s.w.phases, i + 1))
  {
    hide Directions, ShiftAll;
    DirectionsDrop(s.w.ops, s.w.phases, i + 1);
    var first := if s.w.ops[0].instr.conditional then [Direction(s.w.ops[0], s.w.phases[0])] else [];
    ShiftAllAppend(s.ghrRetired, first, Directions(s.w.ops[1..], s.w.phases[1..], i));
    OneShift(s.ghrRetired, s.w.phases[0].out.taken);
  }

  lemma OneShift(h: History, d: bool)
    ensures ShiftAll(h, [d]) == Shift(h, d) && ShiftAll(h, []) == h
  {
  }

  lemma RetireHistories<M>(isa: Isa<M>, s: State<M>)
    requires s.Shape() && Completed(s, 0) && Stores(s) && Outcomes(isa, s.Flow(), s.w) && Histories(s)
    ensures Histories(Retire(isa, s))
  {
    hide Retire, Directions, ShiftAll, Predictions, Stores, Outcomes, FlowStep;
    RetireFields(isa, s);
    var s' := Retire(isa, s);
    RetireHistory(isa, s, |s'.w.ops|);
    forall i | 0 <= i < |s'.w.ops| && s'.w.ops[i].Control()
      ensures s'.w.ops[i].ghr == ShiftAll(s'.ghrRetired, Directions(s'.w.ops, s'.w.phases, i))
    {
      RetireHistory(isa, s, i);
      assert s'.w.ops[i] == s.w.ops[i + 1];
    }
  }

  lemma RetireOrder<M>(isa: Isa<M>, s: State<M>)
    requires s.Shape() && Completed(s, 0) && Stores(s) && Outcomes(isa, s.Flow(), s.w) && InOrder(isa, s)
    ensures InOrder(isa, Retire(isa, s))
  {
    hide Retire, Chain, Packets, QueueChain, PcAt, Stores, Outcomes, FlowStep;
    RetireFields(isa, s);
    DropOrder(isa, s.arch.pc, s.w);
  }

  lemma RetireKeepsInv<M>(isa: Isa<M>, s: State<M>)
    requires Inv(isa, s) && Completed(s, 0)
    ensures Inv(isa, Retire(isa, s))
  {
    hide Retire, Outcomes, Operands, Renaming, Units, MemoryOrder, Histories, InOrder, FlowStep, LeftStores;
    RetireFields(isa, s);
    DropOutcomes(isa, s.Flow(), s.w);
    DropOperands(isa, s.Flow(), s.w, s.alu0, s.alu1);
    RetireRenaming(isa, s);
    RetireUnits(isa, s);
    DropMemoryOrder(s.w);
    RetireHistories(isa, s);
    RetireOrder(isa, s);
  }

  /** The committed instruction is the one the sequential machine executes next, with the same outcome. */
  lemma RetireIsStep<M>(isa: Isa<M>, s: State<M>)
    requires Inv(isa, s) && Completed(s, 0)
    ensures Step(isa, s.arch, Retired(s.w.ops[0].pc, s.w.phases[0].out)) == Some(Retire(isa, s).arch)
  {
    hide Retire, Operands, Renaming, Units, Histories, LeftStores, Execute, WriteReg;
    RetireFields(isa, s);
    HeadIsNext(isa, s);
  }

  /** The oldest instruction in flight is the one at the committed program counter. */
  lemma HeadIsNext<M>(isa: Isa<M>, s: State<M>)
    requires s.Shape() && InOrder(isa, s) && |s.w.ops| > 0
    ensures s.w.ops[0].pc == s.arch.pc && s.w.ops[0].instr == isa.fetch(s.arch.pc)
  {
    assert s.w.ops[0].pc == PcAt(isa, s.arch.pc, s.w, 0);
  }

  lemma RetireIsCommitted<M>(isa: Isa<M>, init: Arch<M>, s: State<M>)
    requires Inv(isa, s) && Completed(s, 0) && Committed(isa, init, s)
    ensures Committed(isa, init, Retire(isa, s))
  {
    hide Operands, Renaming, Units, Histories, Stores, Outcomes, Step, Replay, ShiftAll;
    var e := Retired(s.w.ops[0].pc, s.w.phases[0].out);
    RetireIsStep(isa, s);
    ReplayExtends(isa, init, s.log, e);
    HeadIsNext(isa, s);
    assert (s.log + [e])[..|s.log|] == s.log;
    ShiftAllSnoc(NO_HISTORY, RetiredDirections(isa, s.log), e.out.taken);
    var ds := RetiredDirections(isa, s.log);
    assert ds + [] == ds;
  }
}
