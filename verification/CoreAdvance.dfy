/** Broadcast, wake-up and issue keep the invariant: operands stay right through value and tag-only wake-ups,
    and what issues computes its program-order outcome. */
module CoreAdvance {
  import opened Prelude
  import opened OooPackage
  import opened Isa
  import opened Wakeup
  import opened Dataflow
  import opened Core
  import opened CoreInvariant
  import RAT = RenameTable

  /** What the buses carry is right: any bus that names tag t names a live entry that is executing, and carries
      that entry's program-order value. */
  ghost predicate BusesRight<M>(isa: Isa<M>, s: State<M>, b: Buses)
    requires s.Shape()
  {
    forall t: Tag :: b.Carries(t) ==>
      && s.w.Live(t) && s.w.phases[s.w.IndexOf(t)].Executing?
      && b.Agree(t, Spec(isa, s.Flow(), s.w.ops, s.w.IndexOf(t)).value)
  }

  lemma BroadcastRight<M>(isa: Isa<M>, s: State<M>, t: Option<Tag>)
    requires s.Shape() && Outcomes(isa, s.Flow(), s.w)
    ensures var c := Broadcast(s.w, t);
            c.valid ==> && t == Some(c.tag) && s.w.Live(c.tag) && s.w.phases[s.w.IndexOf(c.tag)].Executing?
                        && c.value == Spec(isa, s.Flow(), s.w.ops, s.w.IndexOf(c.tag)).value
  {
    hide Spec;
  }

  lemma BusesAreRight<M>(isa: Isa<M>, s: State<M>, x: Inputs)
    requires s.Shape() && Outcomes(isa, s.Flow(), s.w)
    ensures BusesRight(isa, s, BusesOf(s, x))
  {
    hide Spec, Broadcast, Outcomes;
    BroadcastRight(isa, s, if s.alu0.Some? then s.alu0 else x.bus0);
    BroadcastRight(isa, s, if s.alu1.Some? then s.alu1 else x.bus1);
    BroadcastRight(isa, s, if s.br.Some? then s.br else x.bus2);
  }

  /** A promised operand's producer is in an ALU register, so its value is on that ALU's own bus. */
  lemma PromisedIsOnBus<M>(s: State<M>, x: Inputs, t: Tag)
    requires s.Shape() && Units(s) && (s.alu0 == Some(t) || s.alu1 == Some(t))
    ensures BusesOf(s, x).Carries(t)
  {
  }

  /** An issuing operand takes the value program order gives it, even if it is only promised. */
  lemma IssuedValue<M>(isa: Isa<M>, s: State<M>, x: Inputs, i: nat, r: Reg, o: Operand)
    requires s.Shape() && Outcomes(isa, s.Flow(), s.w) && Units(s) && i < |s.w.ops|
    requires OperandOk(isa, s.Flow(), s.w, s.alu0, s.alu1, i, r, o) && o.ready
    ensures Resolve(o, BusesOf(s, x), SpecStation(s.w.ops[i].instr.cls)) == FlowAt(isa, s.Flow(), s.w.ops, i).regs[r]
  {
    hide Spec, FlowAt, BusesOf, Units, Outcomes;
    if o.spec {
      BusesAreRight(isa, s, x);
      PromisedIsOnBus(s, x, o.tag);
      var v := Spec(isa, s.Flow(), s.w.ops, s.w.IndexOf(o.tag)).value;
      ProducerValue(isa, s.Flow(), s.w.ops, i, r, s.w.IndexOf(o.tag));
      ResolveTakesBus(o, BusesOf(s, x), v);
    }
  }

  /** The memory a load reads when it leaves the queue is the program-order one. */
  lemma IssuedMemory<M>(isa: Isa<M>, s: State<M>, i: nat)
    requires s.Shape() && Outcomes(isa, s.Flow(), s.w) && Stores(s)
    requires i < |s.w.ops| && s.w.ops[i].IsMem() && s.w.phases[i].Waiting? && OldestMem(s, i)
    ensures Apply(isa, s.arch.mem, s.sq) == FlowAt(isa, s.Flow(), s.w.ops, i).mem
  {
    hide Spec, FlowAt, Apply;
    LeftStoresStop(s.w, i, |s.w.ops|);
    StoresGiveMemory(isa, s.Flow(), s.w, i);
  }

  /** Only loads look at the memory an instruction executes on. */
  lemma OnlyLoadsRead<M>(isa: Isa<M>, i: Instr, pc: Word, a: Word, b: Word, m: M, m': M)
    requires i.cls != Load
    ensures Execute(isa, i, pc, a, b, m) == Execute(isa, i, pc, a, b, m')
  {
  }

  /** The selection rules seen from one selected instruction. */
  lemma SelectedReady<M>(s0: State<M>, s: State<M>, x: Inputs, i: nat)
    requires s.Shape() && CanAdvance(s0, s, x) && x.issue.Selects(i)
    ensures i < |s.w.ops| && s.w.phases[i].Waiting? && s.w.phases[i].op1.ready && s.w.phases[i].op2.ready
    ensures s.w.ops[i].IsMem() <==> x.issue.mem == Some(i)
    ensures s.w.ops[i].IsMem() ==> OldestMem(s, i)
    ensures s.w.ops[i].instr.cls == Branch <==> x.issue.br == Some(i)
    ensures s.w.ops[i].instr.cls == Alu <==> x.issue.alu0 == Some(i) || x.issue.alu1 == Some(i)
  {
  }

  // ---- results ----

  lemma IssuedOutcome<M>(isa: Isa<M>, s0: State<M>, s: State<M>, x: Inputs, i: nat)
    requires s.Shape() && Outcomes(isa, s.Flow(), s.w) && Operands(isa, s.Flow(), s.w, s.alu0, s.alu1) && Units(s) && Stores(s)
    requires CanAdvance(s0, s, x) && x.issue.Selects(i)
    ensures i < |s.w.ops| && AdvanceOne(isa, s, x, i) == Executing(Spec(isa, s.Flow(), s.w.ops, i))
  {
    hide CanAdvance, Outcomes, Units, Stores, Execute, BusesOf, OperandOk, OldestMem, FlowAt, Resolve;
    SelectedReady(s0, s, x, i);
    var op, p := s.w.ops[i], s.w.phases[i];
    var spec := SpecStation(op.instr.cls);
    IssuedValue(isa, s, x, i, op.instr.src1, p.op1);
    IssuedValue(isa, s, x, i, op.instr.src2, p.op2);
    if op.IsMem() {
      IssuedMemory(isa, s, i);
    } else {
      OnlyLoadsRead(isa, op.instr, op.pc, Resolve(p.op1, BusesOf(s, x), spec), Resolve(p.op2, BusesOf(s, x), spec),
                    Apply(isa, s.arch.mem, s.sq), FlowAt(isa, s.Flow(), s.w.ops, i).mem);
    }
  }

  lemma AdvanceOutcomes<M>(isa: Isa<M>, s0: State<M>, s: State<M>, x: Inputs)
    requires s.Shape() && Outcomes(isa, s.Flow(), s.w) && Operands(isa, s.Flow(), s.w, s.alu0, s.alu1) && Units(s) && Stores(s)
    requires CanAdvance(s0, s, x)
    ensures Outcomes(isa, s.Flow(), Advance(isa, s, x).w)
  {
    hide CanAdvance, Operands, Units, Stores, Execute, BusesOf, Spec, AllWakes, Resolve;
    var w' := Advance(isa, s, x).w;
    forall i | 0 <= i < |w'.phases| && !w'.phases[i].Waiting?
      ensures w'.phases[i].out == Spec(isa, s.Flow(), w'.ops, i)
    {
      assert w'.phases[i] == AdvanceOne(isa, s, x, i);
      if x.issue.Selects(i) && s.w.phases[i].Waiting? {
        IssuedOutcome(isa, s0, s, x, i);
      }
    }
  }

  // ---- operands ----

  lemma PresentStays(o: Operand, b: Buses, spec: bool, wk: TagWakes)
    requires o.ready && !o.spec
    ensures AllWakes(o, b, spec, wk) == o
  {
  }

  /** What happens to the producer of a waiting operand in one cycle. */
  lemma ProducerAdvances<M>(isa: Isa<M>, s0: State<M>, s: State<M>, x: Inputs, t: Tag)
    requires s.Shape() && CanAdvance(s0, s, x) && s.w.Live(t) && !s.w.phases[s.w.IndexOf(t)].Done?
    ensures var p' := Advance(isa, s, x).w.phases[s.w.IndexOf(t)];
            && (p'.Done? ==> BusesOf(s, x).Carries(t))
            && (WakesOf(s, x).Announces(t) ==> p'.Executing?)
  {
    hide CanAdvance, Execute, BusesOf, AllWakes, Resolve, OldestMem;
    var j := s.w.IndexOf(t);
    TagAtAge(t, s.w.head);
    if WakesOf(s, x).Announces(t) {
      AnnouncedIsSelected(s0, s, x, t);
      SelectedReady(s0, s, x, j);
    }
  }

  lemma AnnouncedIsSelected<M>(s0: State<M>, s: State<M>, x: Inputs, t: Tag)
    requires s.Shape() && CanAdvance(s0, s, x) && WakesOf(s, x).Announces(t)
    ensures x.issue.Selects(s.w.IndexOf(t)) &&
            (TagOfSelected(s, x.issue.alu0) == Some(t) || TagOfSelected(s, x.issue.alu1) == Some(t))
  {
    if TagOfSelected(s, x.issue.alu0) == Some(t) {
      AgeOfTagAt(s.w.head, x.issue.alu0.value);
    } else {
      AgeOfTagAt(s.w.head, x.issue.alu1.value);
    }
  }

  lemma AdvanceOperand<M>(isa: Isa<M>, s0: State<M>, s: State<M>, x: Inputs, i: nat, r: Reg, o: Operand)
    requires s.Shape() && Outcomes(isa, s.Flow(), s.w) && Units(s) && CanAdvance(s0, s, x) && i < |s.w.ops|
    requires OperandOk(isa, s.Flow(), s.w, s.alu0, s.alu1, i, r, o)
    ensures var s' := Advance(isa, s, x);
            OperandOk(isa, s.Flow(), s'.w, s'.alu0, s'.alu1, i, r,
                      AllWakes(o, BusesOf(s, x), SpecStation(s.w.ops[i].instr.cls), WakesOf(s, x)))
  {
    hide CanAdvance, Outcomes, Units, Spec, FlowAt, BusesOf, WakesOf, AllWakes, AdvanceAll, Writes;
    var spec := SpecStation(s.w.ops[i].instr.cls);
    if o.ready && !o.spec {
      PresentStays(o, BusesOf(s, x), spec, WakesOf(s, x));
    } else {
      var j := s.w.IndexOf(o.tag);
      WritesOlder(s.w.ops, i, r, j);
      var v := Spec(isa, s.Flow(), s.w.ops, j).value;
      BusesAreRight(isa, s, x);
      ProducerAdvances(isa, s0, s, x, o.tag);
      ProducerValue(isa, s.Flow(), s.w.ops, i, r, j);
      if !BusesOf(s, x).Carries(o.tag) {
        assert BusesOf(s, x).Agree(o.tag, v);
      }
      WakesCapture(o, BusesOf(s, x), spec, WakesOf(s, x), v);
      if o.spec {
        PromisedIsOnBus(s, x, o.tag);
      } else if WakesOf(s, x).Announces(o.tag) {
        AnnouncedIsSelected(s0, s, x, o.tag);
      }
    }
  }

  lemma WritesOlder(ops: seq<Op>, i: nat, r: Reg, j: nat)
    requires i <= |ops| && Writes(ops, i, r, j)
    ensures j < i
  {
  }

  lemma AdvanceOperands<M>(isa: Isa<M>, s0: State<M>, s: State<M>, x: Inputs)
    requires s.Shape() && Outcomes(isa, s.Flow(), s.w) && Operands(isa, s.Flow(), s.w, s.alu0, s.alu1) && Units(s)
    requires CanAdvance(s0, s, x)
    ensures var s' := Advance(isa, s, x); Operands(isa, s.Flow(), s'.w, s'.alu0, s'.alu1)
  {
    hide CanAdvance, Outcomes, Units, OperandOk, Execute, BusesOf, WakesOf, AllWakes, Resolve;
    var s' := Advance(isa, s, x);
    forall i | 0 <= i < |s'.w.phases| && s'.w.phases[i].Waiting?
      ensures OperandOk(isa, s.Flow(), s'.w, s'.alu0, s'.alu1, i, s'.w.ops[i].instr.src1, s'.w.phases[i].op1)
      ensures OperandOk(isa, s.Flow(), s'.w, s'.alu0, s'.alu1, i, s'.w.ops[i].instr.src2, s'.w.phases[i].op2)
    {
      assert s'.w.phases[i] == AdvanceOne(isa, s, x, i);
      AdvanceOperand(isa, s0, s, x, i, s.w.ops[i].instr.src1, s.w.phases[i].op1);
      AdvanceOperand(isa, s0, s, x, i, s.w.ops[i].instr.src2, s.w.phases[i].op2);
    }
  }

  // ---- units and checkpoints ----

  /** How one entry's phase may move in a cycle. */
  lemma PhaseMoves<M>(isa: Isa<M>, s0: State<M>, s: State<M>, x: Inputs, i: nat)
    requires s.Shape() && CanAdvance(s0, s, x) && i < |s.w.ops|
    ensures var p, p' := s.w.phases[i], Advance(isa, s, x).w.phases[i];
            && (p'.Waiting? <==> p.Waiting? && !x.issue.Selects(i))
            && (p.Waiting? && x.issue.Selects(i) ==> p'.Executing?)
            && (p.Executing? ==> p' == if BusesOf(s, x).Carries(s.w.TagOf(i)) then Done(p.out) else p)
            && (p.Done? ==> p' == p)
  {
    hide CanAdvance, Execute, BusesOf, WakesOf, AllWakes, Resolve;
    assert Advance(isa, s, x).w.phases[i] == AdvanceOne(isa, s, x, i);
  }

  lemma SelectedTag<M>(s0: State<M>, s: State<M>, x: Inputs, i: Option<nat>)
    requires s.Shape() && CanAdvance(s0, s, x) && i.Some? && x.issue.Selects(i.value)
    ensures TagOfSelected(s, i).Some? && s.w.IndexOf(TagOfSelected(s, i).value) == i.value
  {
    AgeOfTagAt(s.w.head, i.value);
  }

  lemma AdvanceInUnit<M>(isa: Isa<M>, s0: State<M>, s: State<M>, x: Inputs, i: Option<nat>, c: Class)
    requires s.Shape() && CanAdvance(s0, s, x)
    requires i.Some? ==> x.issue.Selects(i.value) && i.value < |s.w.ops| && s.w.ops[i.value].instr.cls == c
    ensures InUnit(Advance(isa, s, x).w, TagOfSelected(s, i), c)
  {
    hide CanAdvance, BusesOf, AdvanceAll, TagOfSelected, Issue.Selects;
    if i.Some? {
      SelectedTag(s0, s, x, i);
      SelectedReady(s0, s, x, i.value);
      PhaseMoves(isa, s0, s, x, i.value);
    } else {
      assert TagOfSelected(s, i).None? by { NoneSelected(s); }
    }
  }

  lemma NoneSelected<M>(s: State<M>)
    ensures TagOfSelected(s, None) == None
  {
  }

  /** An executing ALU or branch instruction was on its unit's bus, so it is finished now. */
  lemma OwnedFinishes<M>(isa: Isa<M>, s0: State<M>, s: State<M>, x: Inputs, i: nat)
    requires s.Shape() && CanAdvance(s0, s, x) && Units(s) && i < |s.w.ops|
    requires s.w.phases[i].Executing? && (s.w.ops[i].instr.cls == Alu || s.w.ops[i].instr.cls == Branch)
    ensures Advance(isa, s, x).w.phases[i].Done?
  {
    hide CanAdvance, AdvanceAll;
    PhaseMoves(isa, s0, s, x, i);
    AgeOfTagAt(s.w.head, i);
  }

  lemma AdvanceUnits<M>(isa: Isa<M>, s0: State<M>, s: State<M>, x: Inputs)
    requires s.Shape() && CanAdvance(s0, s, x) && Units(s)
    ensures Units(Advance(isa, s, x))
  {
    hide BusesOf, AdvanceAll, InUnit;
    var s' := Advance(isa, s, x);
    AdvanceInUnit(isa, s0, s, x, x.issue.alu0, Alu);
    AdvanceInUnit(isa, s0, s, x, x.issue.alu1, Alu);
    AdvanceInUnit(isa, s0, s, x, x.issue.br, Branch);
    if x.issue.alu0.Some? && x.issue.alu1.Some? {
      SelectedTag(s0, s, x, x.issue.alu0);
      SelectedTag(s0, s, x, x.issue.alu1);
    }
    forall i | 0 <= i < |s'.w.ops| && s'.w.phases[i].Executing?
      ensures s'.w.ops[i].instr.cls == Alu ==> s'.alu0 == Some(s'.w.TagOf(i)) || s'.alu1 == Some(s'.w.TagOf(i))
      ensures s'.w.ops[i].instr.cls == Branch ==> s'.br == Some(s'.w.TagOf(i))
    {
      PhaseMoves(isa, s0, s, x, i);
      if s.w.phases[i].Executing? {
        if s.w.ops[i].instr.cls == Alu || s.w.ops[i].instr.cls == Branch {
          OwnedFinishes(isa, s0, s, x, i);
        }
      } else {
        SelectedReady(s0, s, x, i);
      }
    }
  }

  /** The checkpoint part of Advance: only the resolving branch gives its checkpoint back. */
  lemma AdvanceTable<M>(isa: Isa<M>, s: State<M>, x: Inputs)
    requires s.Shape() && Units(s)
    ensures var s' := Advance(isa, s, x);
            && s'.w.head == s.w.head && s'.w.ops == s.w.ops && s'.rat == s.rat && s'.owner == s.owner
            && (s.br.None? ==> s'.used == s.used)
            && (s.br.Some? ==> s'.used == s.used[s.w.ops[s.w.IndexOf(s.br.value)].ckpt := false])
  {
    hide AdvanceAll, Enqueue, TagOfSelected;
  }

  lemma AdvanceCheckpoint<M>(isa: Isa<M>, s0: State<M>, s: State<M>, x: Inputs, i: nat)
    requires s.Shape() && CanAdvance(s0, s, x) && Units(s) && Renaming(s)
    requires i < |s.w.ops| && Unresolved(Advance(isa, s, x).w, i)
    ensures HoldsCheckpoint(Advance(isa, s, x), i)
  {
    hide CanAdvance, Advance, RAT.Agrees, Renames;
    AdvanceTable(isa, s, x);
    PhaseMoves(isa, s0, s, x, i);
    assert Unresolved(s.w, i) && HoldsCheckpoint(s, i);
    if s.br.Some? {
      var b := s.w.IndexOf(s.br.value);
      assert Unresolved(s.w, b) && HoldsCheckpoint(s, b);
      OwnedFinishes(isa, s0, s, x, b);
      AgeOfTagAt(s.w.head, i);
      AgeOfTagAt(s.w.head, b);
    }
  }

  lemma AdvanceOwner<M>(isa: Isa<M>, s0: State<M>, s: State<M>, x: Inputs, k: RAT.Ckpt)
    requires s.Shape() && CanAdvance(s0, s, x) && Units(s) && Renaming(s) && Advance(isa, s, x).used[k]
    ensures var s' := Advance(isa, s, x);
            Unresolved(s'.w, s'.w.IndexOf(s'.owner[k])) && s'.w.ops[s'.w.IndexOf(s'.owner[k])].ckpt == k
  {
    hide CanAdvance, Advance, RAT.Agrees, Renames, HoldsCheckpoint;
    AdvanceTable(isa, s, x);
    var i := s.w.IndexOf(s.owner[k]);
    assert s.used[k] && Unresolved(s.w, i);
    PhaseMoves(isa, s0, s, x, i);
    if s.w.phases[i].Executing? {
      BranchOnBus(s, x, i);
    }
  }

  /** Only the branch in the branch register can be finishing. */
  lemma BranchOnBus<M>(s: State<M>, x: Inputs, i: nat)
    requires s.Shape() && Units(s) && i < |s.w.ops| && s.w.phases[i].Executing? && s.w.ops[i].instr.cls == Branch
    ensures s.br == Some(s.w.TagOf(i)) && s.w.IndexOf(s.br.value) == i
  {
    AgeOfTagAt(s.w.head, i);
  }

  lemma AdvanceRenaming<M>(isa: Isa<M>, s0: State<M>, s: State<M>, x: Inputs)
    requires s.Shape() && CanAdvance(s0, s, x) && Units(s) && Renaming(s)
    ensures Renaming(Advance(isa, s, x))
  {
    hide CanAdvance, Advance, RAT.Agrees, Renames, HoldsCheckpoint, Units;
    AdvanceTable(isa, s, x);
    var s' := Advance(isa, s, x);
    forall i | 0 <= i < |s'.w.ops| && Unresolved(s'.w, i)
      ensures HoldsCheckpoint(s', i)
    {
      AdvanceCheckpoint(isa, s0, s, x, i);
    }
    forall k | 0 <= k < RAT.CKPTS && s'.used[k]
      ensures Unresolved(s'.w, s'.w.IndexOf(s'.owner[k])) && s'.w.ops[s'.w.IndexOf(s'.owner[k])].ckpt == k
    {
      AdvanceOwner(isa, s0, s, x, k);
    }
  }

  // ---- stores ----

  lemma AdvanceMemoryOrder<M>(isa: Isa<M>, s0: State<M>, s: State<M>, x: Inputs)
    requires s.Shape() && CanAdvance(s0, s, x) && MemoryOrder(s.w)
    ensures MemoryOrder(Advance(isa, s, x).w)
  {
    hide CanAdvance, AdvanceAll;
    var w' := Advance(isa, s, x).w;
    forall i, j | 0 <= i < j < |w'.ops| && w'.ops[i].IsMem() && w'.ops[j].IsMem() && w'.phases[i].Waiting?
      ensures w'.phases[j].Waiting?
    {
      PhaseMoves(isa, s0, s, x, i);
      PhaseMoves(isa, s0, s, x, j);
      if x.issue.Selects(j) {
        SelectedReady(s0, s, x, j);
      }
    }
  }

  /** A store that had left, has left; one leaves now only as the selected memory operation. */
  lemma AdvanceLeft<M>(isa: Isa<M>, s0: State<M>, s: State<M>, x: Inputs, i: nat)
    requires s.Shape() && CanAdvance(s0, s, x) && i < |s.w.ops|
    ensures var w' := Advance(isa, s, x).w;
            && (HasLeft(s.w, i) ==> HasLeft(w', i) && QueuedOf(w', i) == QueuedOf(s.w, i))
            && (HasLeft(w', i) && !HasLeft(s.w, i) ==> x.issue.mem == Some(i))
  {
    hide CanAdvance, AdvanceAll;
    PhaseMoves(isa, s0, s, x, i);
    if x.issue.Selects(i) {
      SelectedReady(s0, s, x, i);
    }
  }

  lemma NoneLeftAfter(w: Window, i: nat, k: nat)
    requires w.Sized() && MemoryOrder(w) && i <= k < |w.ops| && w.ops[i].IsMem() && w.phases[i].Waiting?
    ensures !HasLeft(w, k)
  {
  }

  lemma AdvanceQueued<M>(isa: Isa<M>, s0: State<M>, s: State<M>, x: Inputs)
    requires s.Shape() && CanAdvance(s0, s, x) && Stores(s)
    ensures var s' := Advance(isa, s, x); Enqueue(isa, s, x) == LeftStores(s'.w, |s.w.ops|)
  {
    hide CanAdvance, AdvanceOne, AdvanceAll, HasLeft, MemoryOrder, QueuedOf;
    var w' := Advance(isa, s, x).w;
    var n := |s.w.ops|;
    forall k | 0 <= k < n
      ensures HasLeft(s.w, k) ==> HasLeft(w', k) && QueuedOf(w', k) == QueuedOf(s.w, k)
      ensures HasLeft(w', k) && !HasLeft(s.w, k) ==> x.issue.mem == Some(k)
    {
      AdvanceLeft(isa, s0, s, x, k);
    }
    if x.issue.mem.None? {
      LeftStoresSame(s.w, w', n);
    } else {
      var i := x.issue.mem.value;
      SelectedReady(s0, s, x, i);
      forall k | i <= k < n
        ensures !HasLeft(s.w, k)
      {
        NoneLeftAfter(s.w, i, k);
      }
      LeftStoresStop(s.w, i, n);
      LeftStoresStop(w', i + 1, n);
      LeftStoresSame(s.w, w', i);
      EnqueuedStore(isa, s, x, i);
    }
  }

  lemma EnqueuedStore<M>(isa: Isa<M>, s: State<M>, x: Inputs, i: nat)
    requires s.Shape() && x.issue.mem == Some(i) && i < |s.w.ops| && s.w.phases[i].Waiting?
    ensures var w' := Advance(isa, s, x).w;
            Enqueue(isa, s, x) == s.sq + if HasLeft(w', i) then [QueuedOf(w', i)] else []
  {
    hide Execute, AllWakes, Resolve, BusesOf;
  }

  lemma AdvanceStores<M>(isa: Isa<M>, s0: State<M>, s: State<M>, x: Inputs)
    requires s.Shape() && CanAdvance(s0, s, x) && Stores(s)
    ensures Stores(Advance(isa, s, x))
  {
    hide CanAdvance, AdvanceAll, MemoryOrder, LeftStores, Enqueue;
    AdvanceMemoryOrder(isa, s0, s, x);
    AdvanceQueued(isa, s0, s, x);
  }

  // ---- order and history ----

  /** Finishing changes neither where the machine goes next nor the direction in the history, because a
      mispredicted branch recovers instead. */
  lemma FinishingIsPredicted<M>(isa: Isa<M>, s0: State<M>, s: State<M>, x: Inputs, i: nat)
    requires Decodes(isa) && s.Shape() && CanAdvance(s0, s, x) && Units(s) && !Recovers(s) && i < |s.w.ops|
    requires Packets(isa, s.w.ops) && Outcomes(isa, s.Flow(), s.w)
    ensures var p' := Advance(isa, s, x).w.phases[i];
            && Successor(isa, s.w.ops[i], p') == Successor(isa, s.w.ops[i], s.w.phases[i])
            && Direction(s.w.ops[i], p') == Direction(s.w.ops[i], s.w.phases[i])
  {
    hide CanAdvance, Advance, FlowAt, BusesOf;
    PhaseMoves(isa, s0, s, x, i);
    var op, p := s.w.ops[i], s.w.phases[i];
    if p.Executing? {
      var f := FlowAt(isa, s.Flow(), s.w.ops, i);
      assert p.out == ExecuteIn(isa, f, op);
      assert op.instr == isa.fetch(op.pc);
      if op.instr.cls == Branch {
        BranchOnBus(s, x, i);
      }
    }
  }

  lemma AdvanceOrder<M>(isa: Isa<M>, s0: State<M>, s: State<M>, x: Inputs)
    requires Decodes(isa) && s.Shape() && CanAdvance(s0, s, x) && Units(s) && !Recovers(s)
    requires InOrder(isa, s) && Outcomes(isa, s.Flow(), s.w)
    ensures InOrder(isa, Advance(isa, s, x))
  {
    hide CanAdvance, AdvanceAll, Successor, Outcomes, Units, Packets, QueueChain, Recovers;
    var s' := Advance(isa, s, x);
    forall i | 0 <= i <= |s.w.ops|
      ensures PcAt(isa, s'.arch.pc, s'.w, i) == PcAt(isa, s.arch.pc, s.w, i)
    {
      if i > 0 {
        FinishingIsPredicted(isa, s0, s, x, i - 1);
      }
    }
  }

  lemma AdvanceHistories<M>(isa: Isa<M>, s0: State<M>, s: State<M>, x: Inputs)
    requires Decodes(isa) && s.Shape() && CanAdvance(s0, s, x) && Units(s) && !Recovers(s)
    requires Packets(isa, s.w.ops) && Outcomes(isa, s.Flow(), s.w) && Histories(s)
    ensures Histories(Advance(isa, s, x))
  {
    hide CanAdvance, AdvanceAll, Outcomes, Units, Packets, Recovers, Direction, ShiftAll, Directions;
    var s' := Advance(isa, s, x);
    forall i | 0 <= i <= |s.w.ops|
      ensures Directions(s'.w.ops, s'.w.phases, i) == Directions(s.w.ops, s.w.phases, i)
    {
      forall k | 0 <= k < i
        ensures Direction(s.w.ops[k], s'.w.phases[k]) == Direction(s.w.ops[k], s.w.phases[k])
      {
        FinishingIsPredicted(isa, s0, s, x, k);
      }
      DirectionsSame(s.w.ops, s.w.phases, s'.w.ops, s'.w.phases, i);
    }
  }

  lemma AdvanceKeepsInv<M>(isa: Isa<M>, s0: State<M>, s: State<M>, x: Inputs)
    requires Decodes(isa) && Inv(isa, s) && CanAdvance(s0, s, x) && !Recovers(s)
    ensures Inv(isa, Advance(isa, s, x))
  {
    hide CanAdvance, AdvanceAll, Outcomes, Operands, Renaming, Units, Stores, Histories, Recovers, Packets, Chain, QueueChain;
    AdvanceOutcomes(isa, s0, s, x);
    AdvanceOperands(isa, s0, s, x);
    AdvanceRenaming(isa, s0, s, x);
    AdvanceUnits(isa, s0, s, x);
    AdvanceStores(isa, s0, s, x);
    AdvanceOrder(isa, s0, s, x);
    AdvanceHistories(isa, s0, s, x);
  }
}
