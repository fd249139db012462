/** Dispatch, and the commit-time flush, keep the invariant: a looked-up operand is right or names its producer,
    and a branch saves the map as it is after its own rename. */
module CoreDispatch {
  import opened Prelude
  import opened OooPackage
  import opened Isa
  import opened Wakeup
  import opened Dataflow
  import opened Core
  import opened CoreInvariant
  import RAT = RenameTable

  /** The window with one more instruction. */
  function Grow(w: Window, op: Op, p: Phase): Window {
    Window(w.head, w.ops + [op], w.phases + [p])
  }

  lemma GrowOutcomes<M>(isa: Isa<M>, f: Flow<M>, w: Window, op: Op, p: Phase)
    requires f.Valid() && w.Sized() && |w.ops| < ROB_SIZE && Outcomes(isa, f, w)
    requires !p.Waiting? ==> op.instr.cls == Fault && p.out == Execute(isa, op.instr, op.pc, 0, 0, f.mem)
    ensures Outcomes(isa, f, Grow(w, op, p))
  {
    hide FlowAt;
    var w' := Grow(w, op, p);
    forall i | 0 <= i < |w'.phases| && !w'.phases[i].Waiting?
      ensures w'.phases[i].out == Spec(isa, f, w'.ops, i)
    {
      FlowPrefix(isa, f, w.ops, w'.ops, i);
    }
  }

  lemma GrowOperand<M>(isa: Isa<M>, f: Flow<M>, w: Window, op: Op, p: Phase, alu0: Option<Tag>, alu1: Option<Tag>, i: nat, r: Reg, o: Operand)
    requires f.Valid() && w.Sized() && |w.ops| < ROB_SIZE && i <= |w.ops| && OperandOk(isa, f, w, alu0, alu1, i, r, o)
    ensures OperandOk(isa, f, Grow(w, op, p), alu0, alu1, i, r, o)
  {
    hide FlowAt;
    FlowPrefix(isa, f, w.ops, w.ops + [op], i);
  }

  /** Dispatch's lookup is right: a value is the program-order one, a tag names the youngest older writer. */
  lemma LookupOk<M>(isa: Isa<M>, s: State<M>, r: Reg)
    requires s.Shape() && Outcomes(isa, s.Flow(), s.w) && |s.w.ops| < ROB_SIZE
    requires RAT.Agrees(s.rat.current, Renames(s.w.head, s.w.ops, |s.w.ops|))
    ensures OperandOk(isa, s.Flow(), s.w, s.alu0, s.alu1, |s.w.ops|, r, Lookup(s, r))
  {
    hide FlowAt, Spec;
    var rs := Renames(s.w.head, s.w.ops, |s.w.ops|);
    var j := RAT.LastWriter(rs, r);
    if r == 0 {
    } else if j < 0 {
      forall k | 0 <= k < |s.w.ops|
        ensures s.w.ops[k].instr.dst != r
      {
        assert rs[k].dst != r;
      }
      NoProducerValue(isa, s.Flow(), s.w.ops, |s.w.ops|, r);
    } else {
      forall k | j < k < |s.w.ops|
        ensures s.w.ops[k].instr.dst != r
      {
        assert rs[k].dst != r;
      }
      AgeOfTagAt(s.w.head, j);
      assert rs[j].dst == r;
      ProducerValue(isa, s.Flow(), s.w.ops, |s.w.ops|, r, j);
    }
  }

  lemma GrowOperands<M>(isa: Isa<M>, f: Flow<M>, w: Window, op: Op, p: Phase, alu0: Option<Tag>, alu1: Option<Tag>)
    requires f.Valid() && w.Sized() && |w.ops| < ROB_SIZE && Operands(isa, f, w, alu0, alu1)
    requires p.Waiting? ==> OperandOk(isa, f, w, alu0, alu1, |w.ops|, op.instr.src1, p.op1)
    requires p.Waiting? ==> OperandOk(isa, f, w, alu0, alu1, |w.ops|, op.instr.src2, p.op2)
    ensures Operands(isa, f, Grow(w, op, p), alu0, alu1)
  {
    hide OperandOk;
    var w' := Grow(w, op, p);
    forall i | 0 <= i < |w'.phases| && w'.phases[i].Waiting?
      ensures OperandOk(isa, f, w', alu0, alu1, i, w'.ops[i].instr.src1, w'.phases[i].op1)
      ensures OperandOk(isa, f, w', alu0, alu1, i, w'.ops[i].instr.src2, w'.phases[i].op2)
    {
      GrowOperand(isa, f, w, op, p, alu0, alu1, i, w'.ops[i].instr.src1, w'.phases[i].op1);
      GrowOperand(isa, f, w, op, p, alu0, alu1, i, w'.ops[i].instr.src2, w'.phases[i].op2);
    }
  }

  /** The instruction dispatch inserts, and its first phase. */
  function NewOp<M>(s: State<M>): Op
    requires s.Shape() && CanDispatch(s)
  {
    s.queue[0].(ckpt := if FreeCkpt(s.used) < RAT.CKPTS then FreeCkpt(s.used) else 0)
  }

  function NewPhase<M>(isa: Isa<M>, s: State<M>): Phase
    requires s.Shape() && CanDispatch(s)
  {
    var op := s.queue[0];
    if op.instr.cls == Fault then Done(Execute(isa, op.instr, op.pc, 0, 0, s.arch.mem))
    else Waiting(Lookup(s, op.instr.src1), Lookup(s, op.instr.src2))
  }

  lemma NewPhaseDirection<M>(isa: Isa<M>, s: State<M>)
    requires s.Shape() && CanDispatch(s)
    ensures Direction(NewOp(s), NewPhase(isa, s)) == s.queue[0].predTaken
    ensures Successor(isa, NewOp(s), NewPhase(isa, s)) == s.queue[0].PredNext(isa)
  {
  }

  lemma GrowChain<M>(isa: Isa<M>, pc: Word, w: Window, op: Op, p: Phase)
    requires w.Sized() && |w.ops| < ROB_SIZE && Chain(isa, pc, w) && op.pc == PcAt(isa, pc, w, |w.ops|)
    ensures Chain(isa, pc, Grow(w, op, p))
    ensures PcAt(isa, pc, Grow(w, op, p), |w.ops| + 1) == Successor(isa, op, p)
  {
    hide Successor;
    var w' := Grow(w, op, p);
    forall i | 0 <= i < |w'.ops|
      ensures w'.ops[i].pc == PcAt(isa, pc, w', i)
    {
      assert PcAt(isa, pc, w', i) == PcAt(isa, pc, w, i);
    }
  }

  lemma QueueChainDrop<M>(isa: Isa<M>, pc: Word, q: seq<Op>, fetchPc: Word)
    requires |q| > 0 && QueueChain(isa, pc, q, fetchPc)
    ensures q[0].pc == pc && QueueChain(isa, q[0].PredNext(isa), q[1..], fetchPc)
  {
    forall i | 0 <= i < |q[1..]|
      ensures q[1..][i].pc == QueuePc(isa, q[0].PredNext(isa), q[1..], i)
    {
      assert q[i + 1].pc == QueuePc(isa, pc, q, i + 1);
    }
    assert q[0].pc == QueuePc(isa, pc, q, 0);
  }

  /** What dispatch does to the alias table and the checkpoints, field by field. */
  lemma DispatchTable<M>(isa: Isa<M>, s: State<M>)
    requires s.Shape() && CanDispatch(s)
    ensures var s' := Dispatch(isa, s);
            && s'.w == Grow(s.w, NewOp(s), NewPhase(isa, s))
            && s'.queue == s.queue[1..] && s'.fetchPc == s.fetchPc && s'.arch == s.arch && s'.alu0 == s.alu0 && s'.alu1 == s.alu1 && s'.ghrSpec == s.ghrSpec && s'.ghrRetired == s.ghrRetired
            && s'.rat.current == RAT.SetMap(s.rat.current, RAT.Rename(s.queue[0].instr.dst, s.w.TagOf(|s.w.ops|)))
            && (s.queue[0].instr.cls == Branch ==>
                  && !s.used[NewOp(s).ckpt] && s'.rat.saved == s.rat.saved[NewOp(s).ckpt := s'.rat.current]
                  && s'.used == s.used[NewOp(s).ckpt := true] && s'.owner == s.owner[NewOp(s).ckpt := s.w.TagOf(|s.w.ops|)])
            && (s.queue[0].instr.cls != Branch ==>
                  s'.rat.saved == s.rat.saved && s'.used == s.used && s'.owner == s.owner)
  {
    hide Lookup, Execute, RAT.SetMap;
  }

  lemma DispatchOrder<M>(isa: Isa<M>, s: State<M>)
    requires s.Shape() && CanDispatch(s) && InOrder(isa, s)
    ensures InOrder(isa, Dispatch(isa, s))
  {
    hide Dispatch, Chain, QueueChain, PcAt, NewPhase, Lookup, Successor;
    NewPhaseDirection(isa, s);
    var s' := Dispatch(isa, s);
    var n := |s.w.ops|;
    DispatchTable(isa, s);
    QueueChainDrop(isa, PcAt(isa, s.arch.pc, s.w, n), s.queue, s.fetchPc);
    GrowChain(isa, s.arch.pc, s.w, NewOp(s), NewPhase(isa, s));
    assert Packets(isa, s'.w.ops) && Packets(isa, s'.queue);
  }

  lemma DispatchCurrent<M>(isa: Isa<M>, s: State<M>)
    requires s.Shape() && CanDispatch(s) && RAT.Agrees(s.rat.current, Renames(s.w.head, s.w.ops, |s.w.ops|))
    ensures var s' := Dispatch(isa, s);
            RAT.Agrees(s'.rat.current, Renames(s'.w.head, s'.w.ops, |s.w.ops| + 1))
  {
    hide Dispatch, NewPhase, RAT.SetMap, RAT.Agrees;
    DispatchTable(isa, s);
    var n := |s.w.ops|;
    var e := RAT.Rename(s.queue[0].instr.dst, s.w.TagOf(n));
    var ops' := s.w.ops + [NewOp(s)];
    RenamesExtend(s.w.head, s.w.ops, ops', n);
    RAT.SetKeepsAgreement(s.rat.current, Renames(s.w.head, s.w.ops, n), e);
    assert Renames(s.w.head, ops', n + 1) == Renames(s.w.head, s.w.ops, n) + [e];
  }

  lemma DispatchCheckpoint<M>(isa: Isa<M>, s: State<M>, i: nat)
    requires s.Shape() && CanDispatch(s) && Renaming(s) && i <= |s.w.ops| && Unresolved(Dispatch(isa, s).w, i)
    ensures HoldsCheckpoint(Dispatch(isa, s), i)
  {
    hide Dispatch, NewPhase, RAT.SetMap, RAT.Agrees, Renames;
    DispatchTable(isa, s);
    DispatchCurrent(isa, s);
    if i < |s.w.ops| {
      assert Unresolved(s.w, i) && HoldsCheckpoint(s, i);
      RenamesExtend(s.w.head, s.w.ops, s.w.ops + [NewOp(s)], i + 1);
    }
  }

  lemma DispatchOwner<M>(isa: Isa<M>, s: State<M>, k: RAT.Ckpt)
    requires s.Shape() && CanDispatch(s) && Renaming(s) && Dispatch(isa, s).used[k]
    ensures var s' := Dispatch(isa, s);
            Unresolved(s'.w, s'.w.IndexOf(s'.owner[k])) && s'.w.ops[s'.w.IndexOf(s'.owner[k])].ckpt == k
  {
    hide Dispatch, NewPhase, RAT.SetMap, RAT.Agrees, Renames, HoldsCheckpoint;
    DispatchTable(isa, s);
    NewIsUnresolved(isa, s);
    if s.queue[0].instr.cls == Branch && k == NewOp(s).ckpt {
      AgeOfTagAt(s.w.head, |s.w.ops|);
    } else {
      assert s.used[k] && Unresolved(s.w, s.w.IndexOf(s.owner[k]));
    }
  }

  lemma DispatchRenaming<M>(isa: Isa<M>, s: State<M>)
    requires s.Shape() && CanDispatch(s) && Renaming(s)
    ensures Renaming(Dispatch(isa, s))
  {
    hide Dispatch, NewPhase, RAT.SetMap, RAT.Agrees, Renames, HoldsCheckpoint;
    DispatchTable(isa, s);
    DispatchCurrent(isa, s);
    var s' := Dispatch(isa, s);
    forall i | 0 <= i < |s'.w.ops| && Unresolved(s'.w, i)
      ensures HoldsCheckpoint(s', i)
    {
      DispatchCheckpoint(isa, s, i);
    }
    forall k | 0 <= k < RAT.CKPTS && s'.used[k]
      ensures Unresolved(s'.w, s'.w.IndexOf(s'.owner[k])) && s'.w.ops[s'.w.IndexOf(s'.owner[k])].ckpt == k
    {
      DispatchOwner(isa, s, k);
    }
  }

  lemma NewIsUnresolved<M>(isa: Isa<M>, s: State<M>)
    requires s.Shape() && CanDispatch(s)
    ensures s.queue[0].instr.cls == Branch ==> NewPhase(isa, s).Waiting?
  {
  }

  lemma DispatchUnits<M>(isa: Isa<M>, s: State<M>)
    requires s.Shape() && CanDispatch(s) && Units(s)
    ensures Units(Dispatch(isa, s))
  {
    hide Lookup;
    var s' := Dispatch(isa, s);
    assert s'.w == Grow(s.w, NewOp(s), NewPhase(isa, s));
  }

  lemma DispatchStores<M>(isa: Isa<M>, s: State<M>)
    requires s.Shape() && CanDispatch(s) && Stores(s)
    ensures Stores(Dispatch(isa, s))
  {
    hide Lookup;
    var s' := Dispatch(isa, s);
    var n := |s.w.ops|;
    assert s'.w == Grow(s.w, NewOp(s), NewPhase(isa, s));
    LeftStoresSame(s.w, s'.w, n);
    assert !HasLeft(s'.w, n);
  }

  lemma {:induction false} PredictionsDrop(q: seq<Op>, n: nat)
    requires 0 < n <= |q|
    ensures Predictions(q, n) == (if q[0].instr.conditional then [q[0].predTaken] else []) + Predictions(q[1..], n - 1)
  {
    if n > 1 {
      PredictionsDrop(q, n - 1);
    } else {
      assert Predictions(q, 0) == [] && Predictions(q[1..], 0) == [];
    }
  }

  lemma GrowDirections(w: Window, op: Op, p: Phase)
    requires w.Sized() && |w.ops| < ROB_SIZE
    ensures forall i :: 0 <= i <= |w.ops| ==> Directions(Grow(w, op, p).ops, Grow(w, op, p).phases, i) == Directions(w.ops, w.phases, i)
    ensures Directions(Grow(w, op, p).ops, Grow(w, op, p).phases, |w.ops| + 1) ==
            Directions(w.ops, w.phases, |w.ops|) + if op.instr.conditional then [Direction(op, p)] else []
  {
    var w' := Grow(w, op, p);
    forall i | 0 <= i <= |w.ops|
      ensures Directions(w'.ops, w'.phases, i) == Directions(w.ops, w.phases, i)
    {
      DirectionsSame(w.ops, w.phases, w'.ops, w'.phases, i);
    }
  }

  /** Taking the first packet out of the queue moves its direction from the queue's history to the window's. */
  lemma QueueHistory(h: History, q: seq<Op>, i: nat)
    requires 0 < i <= |q|
    ensures ShiftAll(h, Predictions(q, i)) ==
            ShiftAll(ShiftAll(h, if q[0].instr.conditional then [q[0].predTaken] else []), Predictions(q[1..], i - 1))
  {
    PredictionsDrop(q, i);
    ShiftAllAppend(h, if q[0].instr.conditional then [q[0].predTaken] else [], Predictions(q[1..], i - 1));
  }

  lemma DispatchQueueHistory<M>(isa: Isa<M>, s: State<M>)
    requires s.Shape() && CanDispatch(s) && Histories(s)
    ensures var s' := Dispatch(isa, s);
            var h := ShiftAll(s'.ghrRetired, Directions(s'.w.ops, s'.w.phases, |s'.w.ops|));
            && s'.ghrSpec == ShiftAll(h, Predictions(s'.queue, |s'.queue|))
            && forall i :: 0 <= i < |s'.queue| && s'.queue[i].Control() ==> s'.queue[i].ghr == ShiftAll(h, Predictions(s'.queue, i))
  {
    hide Dispatch, ShiftAll, Directions, NewPhase, Predictions, Direction;
    NewPhaseDirection(isa, s);
    DispatchTable(isa, s);
    var s' := Dispatch(isa, s);
    GrowDirections(s.w, NewOp(s), NewPhase(isa, s));
    var ds := Directions(s.w.ops, s.w.phases, |s.w.ops|);
    var h := ShiftAll(s.ghrRetired, ds);
    ShiftAllAppend(s.ghrRetired, ds, if s.queue[0].instr.conditional then [s.queue[0].predTaken] else []);
    QueueHistory(h, s.queue, |s.queue|);
    forall i | 0 <= i < |s'.queue| && s'.queue[i].Control()
      ensures s'.queue[i].ghr == ShiftAll(ShiftAll(s'.ghrRetired, Directions(s'.w.ops, s'.w.phases, |s'.w.ops|)), Predictions(s'.queue, i))
    {
      QueueHistory(h, s.queue, i + 1);
      assert s'.queue[i] == s.queue[i + 1];
    }
  }

  lemma DispatchHistories<M>(isa: Isa<M>, s: State<M>)
    requires s.Shape() && CanDispatch(s) && Histories(s)
    ensures Histories(Dispatch(isa, s))
  {
    hide Dispatch, ShiftAll, Directions, NewPhase, Predictions;
    DispatchQueueHistory(isa, s);
    DispatchTable(isa, s);
    var s' := Dispatch(isa, s);
    GrowDirections(s.w, NewOp(s), NewPhase(isa, s));
    FirstHistory(ShiftAll(s.ghrRetired, Directions(s.w.ops, s.w.phases, |s.w.ops|)), s.queue);
  }

  lemma FirstHistory(h: History, q: seq<Op>)
    ensures ShiftAll(h, Predictions(q, 0)) == h
  {
  }

  lemma ShiftAllEmpty(h: History)
    ensures ShiftAll(h, []) == h
  {
  }

  lemma NewOperandsOk<M>(isa: Isa<M>, s: State<M>)
    requires s.Shape() && CanDispatch(s) && Outcomes(isa, s.Flow(), s.w) && Renaming(s)
    ensures var p := NewPhase(isa, s);
            p.Waiting? ==> && OperandOk(isa, s.Flow(), s.w, s.alu0, s.alu1, |s.w.ops|, NewOp(s).instr.src1, p.op1)
                           && OperandOk(isa, s.Flow(), s.w, s.alu0, s.alu1, |s.w.ops|, NewOp(s).instr.src2, p.op2)
  {
    hide OperandOk, Outcomes, Lookup, RAT.Agrees;
    LookupOk(isa, s, s.queue[0].instr.src1);
    LookupOk(isa, s, s.queue[0].instr.src2);
  }

  lemma NewFault<M>(isa: Isa<M>, s: State<M>)
    requires s.Shape() && CanDispatch(s)
    ensures var p := NewPhase(isa, s);
            !p.Waiting? ==> NewOp(s).instr.cls == Fault && p.out == Execute(isa, NewOp(s).instr, NewOp(s).pc, 0, 0, s.arch.mem)
  {
    hide Execute;
  }

  lemma DispatchKeepsInv<M>(isa: Isa<M>, s: State<M>)
    requires Inv(isa, s) && CanDispatch(s)
    ensures Inv(isa, Dispatch(isa, s))
  {
    hide Dispatch, Outcomes, Operands, OperandOk, Renaming, Stores, Histories, InOrder, Units, NewPhase, NewOp;
    DispatchTable(isa, s);
    NewOperandsOk(isa, s);
    NewFault(isa, s);
    GrowOutcomes(isa, s.Flow(), s.w, NewOp(s), NewPhase(isa, s));
    GrowOperands(isa, s.Flow(), s.w, NewOp(s), NewPhase(isa, s), s.alu0, s.alu1);
    DispatchOrder(isa, s);
    DispatchRenaming(isa, s);
    DispatchUnits(isa, s);
    DispatchStores(isa, s);
    DispatchHistories(isa, s);
  }

  lemma FlushKeepsInv<M>(isa: Isa<M>, s: State<M>, e: Event)
    requires s.Shape()
    ensures Inv(isa, Flush(isa, s, e))
  {
    var s' := Flush(isa, s, e);
    ShiftAllEmpty(s.ghrRetired);
    assert Directions(s'.w.ops, s'.w.phases, 0) == [] && Predictions(s'.queue, 0) == [];
  }
}
