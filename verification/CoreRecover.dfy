/** A branch recovery keeps the invariant: everything about the instructions up to the branch stays as it was,
    and the copied checkpoint is the map at the branch. */
module CoreRecover {
  import opened Prelude
  import opened OooPackage
  import opened Isa
  import opened Wakeup
  import opened Dataflow
  import opened Core
  import opened CoreInvariant
  import RAT = RenameTable

  /** The window cut after entry b, with b finished. */
  function Cut(w: Window, b: nat): Window
    requires b < |w.ops| && b < |w.phases| && !w.phases[b].Waiting?
  {
    Window(w.head, w.ops[..b + 1], w.phases[..b] + [Done(w.phases[b].out)])
  }

  lemma CutOutcomes<M>(isa: Isa<M>, f: Flow<M>, w: Window, b: nat)
    requires f.Valid() && w.Sized() && b < |w.ops| && !w.phases[b].Waiting? && Outcomes(isa, f, w)
    ensures Outcomes(isa, f, Cut(w, b))
  {
    hide FlowStep, ExecuteIn;
    var w' := Cut(w, b);
    forall i | 0 <= i < |w'.phases| && !w'.phases[i].Waiting?
      ensures w'.phases[i].out == Spec(isa, f, w'.ops, i)
    {
      FlowPrefix(isa, f, w.ops, w'.ops, i);
    }
  }

  lemma CutOperand<M>(isa: Isa<M>, f: Flow<M>, w: Window, b: nat, alu0: Option<Tag>, alu1: Option<Tag>, i: nat, r: Reg, o: Operand)
    requires f.Valid() && w.Sized() && b < |w.ops| && !w.phases[b].Waiting? && i <= b
    requires OperandOk(isa, f, w, alu0, alu1, i, r, o)
    ensures OperandOk(isa, f, Cut(w, b), KeepUnlessYounger(alu0, w.TagOf(b), w.head), KeepUnlessYounger(alu1, w.TagOf(b), w.head), i, r, o)
  {
    hide FlowAt;
    FlowPrefix(isa, f, w.ops, w.ops[..b + 1], i);
    AgeOfTagAt(w.head, b);
  }

  lemma CutOperands<M>(isa: Isa<M>, f: Flow<M>, w: Window, b: nat, alu0: Option<Tag>, alu1: Option<Tag>)
    requires f.Valid() && w.Sized() && b < |w.ops| && !w.phases[b].Waiting? && Operands(isa, f, w, alu0, alu1)
    ensures Operands(isa, f, Cut(w, b), KeepUnlessYounger(alu0, w.TagOf(b), w.head), KeepUnlessYounger(alu1, w.TagOf(b), w.head))
  {
    hide OperandOk;
    var w' := Cut(w, b);
    forall i | 0 <= i < |w'.phases| && w'.phases[i].Waiting?
      ensures OperandOk(isa, f, w', KeepUnlessYounger(alu0, w.TagOf(b), w.head), KeepUnlessYounger(alu1, w.TagOf(b), w.head), i, w'.ops[i].instr.src1, w'.phases[i].op1)
      ensures OperandOk(isa, f, w', KeepUnlessYounger(alu0, w.TagOf(b), w.head), KeepUnlessYounger(alu1, w.TagOf(b), w.head), i, w'.ops[i].instr.src2, w'.phases[i].op2)
    {
      CutOperand(isa, f, w, b, alu0, alu1, i, w.ops[i].instr.src1, w.phases[i].op1);
      CutOperand(isa, f, w, b, alu0, alu1, i, w.ops[i].instr.src2, w.phases[i].op2);
    }
  }

  lemma CutOrder<M>(isa: Isa<M>, s: State<M>)
    requires s.Shape() && Recovers(s) && InOrder(isa, s) && Units(s)
    requires !s.w.phases[s.w.IndexOf(s.br.value)].out.exception
    ensures InOrder(isa, Recover(isa, s))
  {
    var b := s.w.IndexOf(s.br.value);
    var s' := Recover(isa, s);
    assert s'.w == Cut(s.w, b);
    forall i | 0 <= i < |s'.w.ops|
      ensures s'.w.ops[i].pc == PcAt(isa, s'.arch.pc, s'.w, i)
    {
      assert s.w.ops[i].pc == PcAt(isa, s.arch.pc, s.w, i);
    }
  }

  lemma CutRenaming<M>(isa: Isa<M>, s: State<M>)
    requires s.Shape() && Recovers(s) && Renaming(s) && Units(s)
    ensures Renaming(Recover(isa, s))
  {
    hide RAT.Agrees, Renames;
    var tag := s.br.value;
    var b := s.w.IndexOf(tag);
    var s' := Recover(isa, s);
    TagAtAge(tag, s.w.head);
    assert Unresolved(s.w, b);
    assert HoldsCheckpoint(s, b);
    RenamesExtend(s.w.head, s.w.ops, s'.w.ops, b + 1);
    forall i | 0 <= i < |s'.w.ops| && Unresolved(s'.w, i)
      ensures HoldsCheckpoint(s', i)
    {
      assert Unresolved(s.w, i) && HoldsCheckpoint(s, i);
      RenamesExtend(s.w.head, s.w.ops, s'.w.ops, i + 1);
      AgeOfTagAt(s.w.head, i);
    }
    forall k | 0 <= k < RAT.CKPTS && s'.used[k]
      ensures Unresolved(s'.w, s'.w.IndexOf(s'.owner[k])) && s'.w.ops[s'.w.IndexOf(s'.owner[k])].ckpt == k
    {
      assert s.used[k] && Unresolved(s.w, s.w.IndexOf(s.owner[k]));
    }
  }

  lemma CutUnits<M>(isa: Isa<M>, s: State<M>)
    requires s.Shape() && Recovers(s) && Units(s)
    ensures Units(Recover(isa, s))
  {
    var b := s.w.IndexOf(s.br.value);
    var s' := Recover(isa, s);
    assert s'.w == Cut(s.w, b);
    forall i | 0 <= i < |s'.w.ops| && s'.w.phases[i].Executing?
      ensures s'.w.ops[i].instr.cls == Alu ==> s'.alu0 == Some(s'.w.TagOf(i)) || s'.alu1 == Some(s'.w.TagOf(i))
      ensures s'.w.ops[i].instr.cls == Branch ==> s'.br == Some(s'.w.TagOf(i))
    {
      AgeOfTagAt(s.w.head, i);
    }
  }

  lemma CutStores<M>(isa: Isa<M>, s: State<M>)
    requires s.Shape() && Recovers(s) && Stores(s)
    ensures Stores(Recover(isa, s))
  {
    var b := s.w.IndexOf(s.br.value);
    var s' := Recover(isa, s);
    TagAtAge(s.br.value, s.w.head);
    KeepOlderStores(s.w, b, |s.w.ops|);
    assert s'.w == Cut(s.w, b);
    LeftStoresSame(s.w, s'.w, b + 1);
  }

  lemma CutDirections(w: Window, b: nat, i: nat)
    requires w.Sized() && b < |w.ops| && !w.phases[b].Waiting? && i <= b
    ensures Directions(Cut(w, b).ops, Cut(w, b).phases, i) == Directions(w.ops, w.phases, i)
  {
    hide Directions;
    DirectionsSame(w.ops, w.phases, Cut(w, b).ops, Cut(w, b).phases, i);
  }

  /** The history register restarts from the copy the branch carried, plus its real direction. */
  lemma CutHistory(w: Window, b: nat, h: History)
    requires w.Sized() && b < |w.ops| && !w.phases[b].Waiting? && !w.phases[b].out.exception
    requires w.ops[b].ghr == ShiftAll(h, Directions(w.ops, w.phases, b))
    ensures ShiftAll(h, Directions(Cut(w, b).ops, Cut(w, b).phases, b + 1)) ==
            if w.ops[b].instr.conditional then Shift(w.ops[b].ghr, w.phases[b].out.taken) else w.ops[b].ghr
  {
    hide ShiftAll;
    var ds := Directions(w.ops, w.phases, b);
    CutDirections(w, b, b);
    ShiftAllSnoc(h, ds, w.phases[b].out.taken);
    assert ds + [] == ds;
  }

  lemma ShiftAllNone(h: History)
    ensures ShiftAll(h, []) == h
  {
  }

  lemma RecoverFields<M>(isa: Isa<M>, s: State<M>)
    requires s.Shape() && Recovers(s)
    ensures var s', b := Recover(isa, s), s.w.IndexOf(s.br.value);
            && b < |s.w.ops| && !s.w.phases[b].Waiting? && s'.w == Cut(s.w, b) && s'.queue == [] && s'.ghrRetired == s.ghrRetired
            && s'.arch == s.arch && s'.alu0 == KeepUnlessYounger(s.alu0, s.w.TagOf(b), s.w.head)
            && s'.alu1 == KeepUnlessYounger(s.alu1, s.w.TagOf(b), s.w.head)
            && s'.ghrSpec == if s.w.ops[b].instr.conditional then Shift(s.w.ops[b].ghr, s.w.phases[b].out.taken) else s.w.ops[b].ghr
  {
    TagAtAge(s.br.value, s.w.head);
  }

  lemma CutHistories<M>(isa: Isa<M>, s: State<M>)
    requires s.Shape() && Recovers(s) && Histories(s) && s.w.ops[s.w.IndexOf(s.br.value)].Control()
    requires !s.w.phases[s.w.IndexOf(s.br.value)].out.exception
    ensures Histories(Recover(isa, s))
  {
    hide ShiftAll, Directions, Cut, Recover, Mispredicted, Shift;
    RecoverFields(isa, s);
    var b := s.w.IndexOf(s.br.value);
    var s' := Recover(isa, s);
    CutSize(s.w, b);
    CutHistory(s.w, b, s.ghrRetired);
    assert Predictions([], 0) == [];
    ShiftAllNone(s'.ghrSpec);
    forall i | 0 <= i < |s'.w.ops| && s'.w.ops[i].Control()
      ensures s'.w.ops[i].ghr == ShiftAll(s'.ghrRetired, Directions(s'.w.ops, s'.w.phases, i))
    {
      CutDirections(s.w, b, i);
    }
  }

  lemma CutSize(w: Window, b: nat)
    requires w.Sized() && b < |w.ops| && !w.phases[b].Waiting?
    ensures Cut(w, b).Sized() && |Cut(w, b).ops| == b + 1 && Cut(w, b).head == w.head
    ensures forall i :: 0 <= i <= b ==> Cut(w, b).ops[i] == w.ops[i]
  {
  }

  lemma BranchOutcome<M>(isa: Isa<M>, f: Flow<M>, w: Window, i: nat)
    requires f.Valid() && w.Sized() && i < |w.ops| && w.ops[i].instr.cls == Branch && Outcomes(isa, f, w)
    ensures !w.phases[i].Waiting? ==> !w.phases[i].out.exception
  {
    hide FlowAt;
  }

  lemma RecoverKeepsInv<M>(isa: Isa<M>, s: State<M>)
    requires Inv(isa, s) && Recovers(s)
    ensures Inv(isa, Recover(isa, s))
  {
    hide Recover, Outcomes, Operands, Renaming, Stores, Histories, InOrder, Cut, KeepUnlessYounger;
    RecoverFields(isa, s);
    var b := s.w.IndexOf(s.br.value);
    BranchOutcome(isa, s.Flow(), s.w, b);
    CutOutcomes(isa, s.Flow(), s.w, b);
    CutOperands(isa, s.Flow(), s.w, b, s.alu0, s.alu1);
    CutOrder(isa, s);
    CutRenaming(isa, s);
    CutUnits(isa, s);
    CutStores(isa, s);
    CutHistories(isa, s);
  }
}
