/** The step machine's window is the reorder buffer's contents: one step of the machine is one edge of the
    buffer, driven by the buses, the dispatch slots, the commits and the recovery of that cycle. */
module CoreBuffer {
  import opened Prelude
  import opened OooPackage
  import opened Isa
  import opened Wakeup
  import opened Dataflow
  import opened Core
  import opened CoreInvariant
  import opened CoreTable
  import CoreAdvance
  import CoreDispatch
  import CoreRetire
  import ROB = ReorderBuffer

  // ---- the buffer's view of an instruction ----

  const UNFINISHED := ROB.Dyn(true, false, 0, false, 0, 0, false, false, 0)

  /** The completion fields of an entry: nothing until it is finished, then its outcome. Only the branch unit
      reports a next PC and a misprediction. */
  function View(op: Op, p: Phase): ROB.Dyn {
    if !p.Done? then UNFINISHED
    else ROB.Dyn(true, true, p.out.value, p.out.exception, p.out.cause % 16,
                 if p.out.exception then p.out.tval else if op.instr.cls == Branch then p.out.next else 0,
                 op.instr.cls == Branch && Mispredicted(op, p.out), p.out.taken, 0)
  }

  function ViewAll(ops: seq<Op>, ps: seq<Phase>): (v: seq<ROB.Slot<Op>>)
    requires |ops| == |ps|
    ensures |v| == |ops| && forall i :: 0 <= i < |ops| ==> v[i] == ROB.Slot(View(ops[i], ps[i]), ops[i])
  {
    var n := |ops|;
    if n == 0 then [] else ViewAll(ops[..n - 1], ps[..n - 1]) + [ROB.Slot(View(ops[n - 1], ps[n - 1]), ops[n - 1])]
  }

  /** The entry dispatch allocates. */
  function EntryOf(op: Op, p: Phase): ROB.Entry<Op> {
    if p.Done? then ROB.Entry(true, p.out.value, p.out.exception, p.out.cause, p.out.tval, 0, false, p.out.taken, 0, op)
    else ROB.Entry(false, 0, false, 0, 0, 0, false, false, 0, op)
  }

  /** A bus as the buffer sees it. */
  function Reported(w: Window, t: Option<Tag>): ROB.Completion {
    if t.Some? && w.IndexOf(t.value) < |w.ops| && w.IndexOf(t.value) < |w.phases| && w.phases[w.IndexOf(t.value)].Executing? then
      var op, out := w.ops[w.IndexOf(t.value)], w.phases[w.IndexOf(t.value)].out;
      ROB.Completion(true, t.value, out.value, out.exception, out.cause, out.tval,
                     op.instr.cls == Branch && Mispredicted(op, out), out.taken, if op.instr.cls == Branch then out.next else 0, 0)
    else ROB.Completion(false, 0, 0, false, 0, 0, false, false, 0, 0)
  }

  function NewEntry<M>(isa: Isa<M>, s: State<M>, x: Inputs, k: nat): ROB.Entry<Op>
    requires s.Shape()
  {
    var w := if !Flushes(s, x) && !Recovers(s) && x.dispatch <= 2 && x.dispatch > k then FirstDispatches(isa, s, k + 1).w else s.w;
    if k < Dispatched(s, x) && |w.ops| > 0 && |w.phases| > 0 then EntryOf(w.ops[|w.ops| - 1], w.phases[|w.phases| - 1])
    else EntryOf(Op(0, Instr(Alu, 0, 0, 0, false, false, 0), false, 0, NO_HISTORY, 0), Waiting(Operand(true, false, 0, 0), Operand(true, false, 0, 0)))
  }

  /** The state after the first k dispatches of the cycle, as far as they are possible. */
  function FirstDispatches<M>(isa: Isa<M>, s: State<M>, k: nat): (s': State<M>)
    requires s.Shape()
    ensures s'.Shape()
  {
    if k == 0 then s
    else
      var s1 := FirstDispatches(isa, s, k - 1);
      if CanDispatch(s1) then Dispatch(isa, s1) else s1
  }

  function BufferPorts<M>(isa: Isa<M>, s: State<M>, x: Inputs): ROB.Inputs<Op>
    requires s.Shape()
  {
    ROB.Inputs(
      Flushes(s, x), Recovers(s) && !Flushes(s, x), if s.br.Some? then s.br.value else 0,
      Dispatched(s, x) >= 1, NewEntry(isa, s, x, 0), Dispatched(s, x) >= 2, NewEntry(isa, s, x, 1),
      Reported(s.w, if s.alu0.Some? then s.alu0 else x.bus0),
      Reported(s.w, if s.alu1.Some? then s.alu1 else x.bus1),
      Reported(s.w, if s.br.Some? then s.br else x.bus2),
      Committing(s, x))
  }

  // ---- completion ----

  lemma ReportedIsBroadcast(w: Window, t: Option<Tag>)
    requires w.Sized()
    ensures Reported(w, t).valid == Broadcast(w, t).valid && (Reported(w, t).valid ==> Reported(w, t).tag == Broadcast(w, t).tag)
  {
  }

  /** Recording a broadcast turns the view of an executing entry into the view of a finished one. */
  lemma ReportCompletes(w: Window, t: Option<Tag>, i: nat, d: ROB.Dyn)
    requires w.Sized() && i < |w.ops| && Reported(w, t).valid && Reported(w, t).tag == w.TagOf(i) && d.valid
    ensures w.phases[i].Executing? && ROB.Complete(d, Reported(w, t)) == View(w.ops[i], Done(w.phases[i].out))
  {
    hide Mispredicted;
    AgeOfTagAt(w.head, i);
  }

  /** Whichever of the three buses name an entry, and however many, recording them gives v. */
  lemma CompletedByAny(d: ROB.Dyn, t: Tag, p: ROB.Inputs<Op>, v: ROB.Dyn)
    requires d.valid && v.valid
    requires p.cdb0.valid && p.cdb0.tag == t ==> ROB.Complete(d, p.cdb0) == v
    requires p.cdb1.valid && p.cdb1.tag == t ==> ROB.Complete(d, p.cdb1) == v
    requires p.cdb2.valid && p.cdb2.tag == t ==> ROB.Complete(d, p.cdb2) == v
    ensures ROB.Completed(d, t, p) ==
            if (p.cdb0.valid && p.cdb0.tag == t) || (p.cdb1.valid && p.cdb1.tag == t) || (p.cdb2.valid && p.cdb2.tag == t) then v else d
  {
    hide ROB.Complete;
    CompleteSame(d, v, p.cdb1);
    CompleteSame(d, v, p.cdb2);
  }

  lemma CompleteSame(d: ROB.Dyn, d': ROB.Dyn, c: ROB.Completion)
    requires d.valid == d'.valid
    ensures ROB.Complete(d, c) == ROB.Complete(d', c)
  {
  }

  lemma EntryCompletes<M>(isa: Isa<M>, s: State<M>, x: Inputs, i: nat)
    requires s.Shape() && i < |s.w.ops|
    ensures BusesOf(s, x).Carries(s.w.TagOf(i)) ==> s.w.phases[i].Executing?
    ensures ROB.Completed(View(s.w.ops[i], s.w.phases[i]), s.w.TagOf(i), BufferPorts(isa, s, x)) ==
            if BusesOf(s, x).Carries(s.w.TagOf(i)) then View(s.w.ops[i], Done(s.w.phases[i].out)) else View(s.w.ops[i], s.w.phases[i])
  {
    hide Reported, Broadcast, ROB.Complete, ROB.Completed, Mispredicted, NewEntry, Dispatched, Committing, View;
    var t, d := s.w.TagOf(i), View(s.w.ops[i], s.w.phases[i]);
    ViewValid(s.w.ops[i], s.w.phases[i]);
    var t0 := if s.alu0.Some? then s.alu0 else x.bus0;
    var t1 := if s.alu1.Some? then s.alu1 else x.bus1;
    var t2 := if s.br.Some? then s.br else x.bus2;
    ReportedIsBroadcast(s.w, t0);
    ReportedIsBroadcast(s.w, t1);
    ReportedIsBroadcast(s.w, t2);
    forall u | u in [t0, t1, t2] && Reported(s.w, u).valid && Reported(s.w, u).tag == t
      ensures s.w.phases[i].Executing? && ROB.Complete(d, Reported(s.w, u)) == View(s.w.ops[i], Done(s.w.phases[i].out))
    {
      ReportCompletes(s.w, u, i, d);
    }
    assert t0 in [t0, t1, t2] && t1 in [t0, t1, t2] && t2 in [t0, t1, t2];
    if BusesOf(s, x).Carries(t) {
      ViewValid(s.w.ops[i], Done(s.w.phases[i].out));
      CompletedByAny(d, t, BufferPorts(isa, s, x), View(s.w.ops[i], Done(s.w.phases[i].out)));
    } else {
      CompletedByAny(d, t, BufferPorts(isa, s, x), d);
    }
  }

  lemma ViewValid(op: Op, p: Phase)
    ensures View(op, p).valid
  {
  }

  lemma FreshEntryView(op: Op, p: Phase)
    requires p.Done? ==> op.instr.cls != Branch && p.out.exception
    ensures ROB.Slot(ROB.DynOf(EntryOf(op, p)), EntryOf(op, p).fixed) == ROB.Slot(View(op, p), op)
  {
  }

  // ---- the machine ----

  /** The buses carry the same surviving results before and after the front half of the cycle. */
  lemma SameBuses<M>(isa: Isa<M>, s: State<M>, x: Inputs, i: nat)
    requires Inv(isa, s) && Allowed(isa, s, x) && !Flushes(s, x)
    requires i < |s.w.ops| && (Recovers(s) ==> i < s.w.IndexOf(s.br.value))
    ensures BusesOf(FrontHalf(isa, s, x), x).Carries(s.w.TagOf(i)) == BusesOf(s, x).Carries(s.w.TagOf(i))
  {
    hide Outcomes, Operands, Renaming, Stores, Histories, InOrder, Lookup, Execute, Mispredicted, FreeCkpt, KeepOlder, ReleaseYounger;
    AgeOfTagAt(s.w.head, i);
    if Recovers(s) {
      SameBusesRecover(isa, s, x, i);
    } else {
      SameBusesDispatch(isa, s, x);
    }
  }

  lemma SameBusesRecover<M>(isa: Isa<M>, s: State<M>, x: Inputs, i: nat)
    requires s.Shape() && Units(s) && Recovers(s) && CanAdvance(s, Recover(isa, s), x) && i < s.w.IndexOf(s.br.value)
    ensures BusesOf(Recover(isa, s), x).Carries(s.w.TagOf(i)) == BusesOf(s, x).Carries(s.w.TagOf(i))
  {
    hide Mispredicted, KeepOlder, ReleaseYounger;
    AgeOfTagAt(s.w.head, i);
  }

  lemma SameBusesDispatch<M>(isa: Isa<M>, s: State<M>, x: Inputs)
    requires s.Shape() && Units(s) && CanDispatchMany(isa, s, x.dispatch)
    ensures BusesOf(DispatchMany(isa, s, x.dispatch), x) == BusesOf(s, x)
  {
    hide Lookup, Execute, FreeCkpt;
    if x.dispatch >= 1 {
      SameBusesOne(isa, s, x);
      if x.dispatch == 2 {
        SameBusesOne(isa, Dispatch(isa, s), x);
      }
    }
  }

  lemma SameBusesOne<M>(isa: Isa<M>, s: State<M>, x: Inputs)
    requires s.Shape() && CanDispatch(s)
    ensures BusesOf(Dispatch(isa, s), x) == BusesOf(s, x)
  {
    hide CoreDispatch.NewOp, CoreDispatch.NewPhase, Dispatch, BusesOf;
    CoreDispatch.DispatchTable(isa, s);
    DispatchUnitsSame(isa, s);
    CoreDispatch.NewIsUnresolved(isa, s);
    GrowBuses(s, Dispatch(isa, s), x, CoreDispatch.NewOp(s), CoreDispatch.NewPhase(isa, s)) by { NewNotExecuting(isa, s); }
  }

  lemma NewNotExecuting<M>(isa: Isa<M>, s: State<M>)
    requires s.Shape() && CanDispatch(s)
    ensures !CoreDispatch.NewPhase(isa, s).Executing?
  {
    hide Lookup, Execute;
  }

  lemma DispatchUnitsSame<M>(isa: Isa<M>, s: State<M>)
    requires s.Shape() && CanDispatch(s)
    ensures var s' := Dispatch(isa, s); s'.alu0 == s.alu0 && s'.alu1 == s.alu1 && s'.br == s.br
  {
    hide Lookup, Execute, FreeCkpt;
  }

  lemma GrowBuses<M>(s: State<M>, s': State<M>, x: Inputs, op: Op, p: Phase)
    requires s.Shape() && s'.Shape() && s'.w == CoreDispatch.Grow(s.w, op, p) && !p.Executing?
    requires s'.alu0 == s.alu0 && s'.alu1 == s.alu1 && s'.br == s.br
    ensures BusesOf(s', x) == BusesOf(s, x)
  {
  }

  /** After the whole cycle but before the retired entries leave, the views are the completed ones. */
  lemma OldEntryView<M>(isa: Isa<M>, s: State<M>, x: Inputs, i: nat)
    requires Inv(isa, s) && Allowed(isa, s, x) && !Flushes(s, x)
    requires i < |s.w.ops| && (Recovers(s) ==> i <= s.w.IndexOf(s.br.value))
    ensures var w' := Advance(isa, FrontHalf(isa, s, x), x).w;
            && i < |w'.ops| && w'.ops[i] == s.w.ops[i]
            && View(w'.ops[i], w'.phases[i]) == ROB.Completed(View(s.w.ops[i], s.w.phases[i]), s.w.TagOf(i), BufferPorts(isa, s, x))
  {
    hide Inv, Allowed, FrontHalf, Advance, View, BusesOf, BufferPorts, ROB.Completed, CanAdvance, Mispredicted;
    var s1 := FrontHalf(isa, s, x);
    FrontFacts(isa, s, x);
    EntryCompletes(isa, s, x, i);
    CoreAdvance.PhaseMoves(isa, s, s1, x, i);
    if Recovers(s) && i == s.w.IndexOf(s.br.value) {
      BranchIsOnBus(s, x);
    } else {
      SameBuses(isa, s, x, i);
      if s.w.phases[i].Waiting? {
        UnfinishedViews(s.w.ops[i], s.w.phases[i], Advance(isa, s1, x).w.phases[i]);
      } else if s.w.phases[i].Executing? {
      } else {
      }
    }
  }

  /** A finished entry that is not cut off is the same after the cycle's broadcasts. */
  lemma OldEntrySame<M>(isa: Isa<M>, s: State<M>, x: Inputs, i: nat)
    requires Inv(isa, s) && Allowed(isa, s, x) && !Flushes(s, x) && Completed(s, i) && i < RetireCount(s, x.storeBufferFull)
    ensures var w' := Advance(isa, FrontHalf(isa, s, x), x).w;
            i < |w'.ops| && i < |w'.phases| && w'.ops[i] == s.w.ops[i] && w'.phases[i] == s.w.phases[i]
  {
    hide Inv, Allowed, FrontHalf, Advance, RetireCount, Mispredicted, CanAdvance;
    FrontFacts(isa, s, x);
    AdvanceSizes(isa, FrontHalf(isa, s, x), x);
    FrontKeepsCompleted(isa, s, x);
    CoreAdvance.PhaseMoves(isa, s, FrontHalf(isa, s, x), x, i);
  }

  lemma UnfinishedViews(op: Op, p: Phase, p': Phase)
    requires !p.Done? && !p'.Done?
    ensures View(op, p) == View(op, p')
  {
  }

  lemma BranchIsOnBus<M>(s: State<M>, x: Inputs)
    requires s.Shape() && Recovers(s)
    ensures BusesOf(s, x).Carries(s.w.TagOf(s.w.IndexOf(s.br.value)))
  {
    hide Mispredicted;
    TagAtAge(s.br.value, s.w.head);
  }

  /** The front half's window: the old entries with the recovered branch finished, or with new ones behind. */
  lemma FrontFacts<M>(isa: Isa<M>, s: State<M>, x: Inputs)
    requires Inv(isa, s) && Allowed(isa, s, x) && !Flushes(s, x)
    ensures var s1 := FrontHalf(isa, s, x);
            && s.Shape() && s1.Shape() && CanAdvance(s, s1, x) && s1.w.head == s.w.head
            && (Recovers(s) ==> s.br.Some? && s.w.IndexOf(s.br.value) < |s.w.ops| && s.w.phases[s.w.IndexOf(s.br.value)].Executing?)
            && |s1.w.ops| == (if Recovers(s) then s.w.IndexOf(s.br.value) + 1 else |s.w.ops| + x.dispatch)
            && (forall i :: 0 <= i < |s.w.ops| && i < |s1.w.ops| ==>
                  && s1.w.ops[i] == s.w.ops[i]
                  && s1.w.phases[i] == if Recovers(s) && i == s.w.IndexOf(s.br.value) then Done(s.w.phases[i].out) else s.w.phases[i])
            && (!Recovers(s) ==> Dispatched(s, x) == x.dispatch && x.dispatch <= 2)
  {
    hide Outcomes, Operands, Renaming, Stores, Histories, InOrder, Units, Lookup, Execute, Mispredicted, FreeCkpt, KeepOlder, ReleaseYounger, CanAdvance;
  }

  /** A newly dispatched entry is seen as allocated. */
  lemma NewEntryView<M>(isa: Isa<M>, s: State<M>, x: Inputs, k: nat)
    requires Inv(isa, s) && Allowed(isa, s, x) && !Flushes(s, x) && !Recovers(s) && k < x.dispatch
    ensures var w' := Advance(isa, FrontHalf(isa, s, x), x).w;
            var e := NewEntry(isa, s, x, k);
            && |s.w.ops| + k < |w'.ops|
            && ROB.Slot(ROB.DynOf(e), e.fixed) == ROB.Slot(View(w'.ops[|s.w.ops| + k], w'.phases[|s.w.ops| + k]), w'.ops[|s.w.ops| + k])
  {
    hide Inv, Allowed, Advance, View, BusesOf, CanAdvance, Mispredicted, EntryOf, FrontHalf, NewEntry;
    var s1 := FrontHalf(isa, s, x);
    var i := |s.w.ops| + k;
    FrontFacts(isa, s, x);
    NewEntryIs(isa, s, x, k);
    CoreAdvance.PhaseMoves(isa, s, s1, x, i);
    NotSelected(s, s1, x, i);
    FreshEntryView(s1.w.ops[i], s1.w.phases[i]);
    if !s1.w.phases[i].Done? {
      UnfinishedViews(s1.w.ops[i], s1.w.phases[i], Advance(isa, s1, x).w.phases[i]);
    }
  }

  lemma NotSelected<M>(s0: State<M>, s: State<M>, x: Inputs, i: nat)
    requires s.Shape() && CanAdvance(s0, s, x) && i >= |s0.w.ops|
    ensures !x.issue.Selects(i)
  {
  }

  /** One dispatch appends one entry that is not executing, and finished only if it is a fault. */
  lemma DispatchAppends<M>(isa: Isa<M>, s: State<M>)
    requires s.Shape() && CanDispatch(s)
    ensures var w, n := Dispatch(isa, s).w, |s.w.ops|;
            && |w.ops| == |w.phases| == n + 1 && w.ops[..n] == s.w.ops && w.phases[..n] == s.w.phases
            && !w.phases[n].Executing? && (w.phases[n].Done? ==> w.ops[n].instr.cls != Branch && w.phases[n].out.exception)
            && (w.ops[n].instr.cls == Fault ==> w.phases[n].Done?)
  {
    hide Lookup, Dispatch, CoreDispatch.NewOp;
    CoreDispatch.DispatchTable(isa, s);
    FaultRaises(isa, s);
  }

  lemma FaultRaises<M>(isa: Isa<M>, s: State<M>)
    requires s.Shape() && CanDispatch(s)
    ensures var p := CoreDispatch.NewPhase(isa, s);
            && !p.Executing? && (p.Done? ==> CoreDispatch.NewOp(s).instr.cls != Branch && p.out.exception)
            && (CoreDispatch.NewOp(s).instr.cls == Fault ==> p.Done?)
  {
    hide Lookup;
  }

  ghost predicate IsNewEntry<M>(isa: Isa<M>, s: State<M>, x: Inputs, w: Window, k: nat)
    requires s.Shape()
  {
    var i := |s.w.ops| + k;
    && i < |w.ops| && i < |w.phases| && NewEntry(isa, s, x, k) == EntryOf(w.ops[i], w.phases[i])
    && !w.phases[i].Executing? && (w.phases[i].Done? ==> w.ops[i].instr.cls != Branch && w.phases[i].out.exception)
    && (w.ops[i].instr.cls == Fault ==> w.phases[i].Done?)
  }

  lemma NewEntryFirst<M>(isa: Isa<M>, s: State<M>, x: Inputs)
    requires s.Shape() && !Flushes(s, x) && !Recovers(s) && 1 <= x.dispatch <= 2 && x.dispatch <= |s.queue| && CanDispatch(s)
    ensures IsNewEntry(isa, s, x, Dispatch(isa, s).w, 0)
  {
    hide Dispatch, EntryOf, Flushes, Recovers, CanDispatch;
    assert FirstDispatches(isa, s, 0) == s;
    assert FirstDispatches(isa, s, 1) == Dispatch(isa, s);
    DispatchAppends(isa, s);
  }

  lemma NewEntrySecond<M>(isa: Isa<M>, s: State<M>, x: Inputs)
    requires s.Shape() && !Flushes(s, x) && !Recovers(s) && x.dispatch == 2 <= |s.queue| && CanDispatch(s) && CanDispatch(Dispatch(isa, s))
    ensures IsNewEntry(isa, s, x, Dispatch(isa, Dispatch(isa, s)).w, 1)
  {
    hide Dispatch, EntryOf, Flushes, Recovers, CanDispatch;
    assert FirstDispatches(isa, s, 0) == s;
    assert FirstDispatches(isa, s, 1) == Dispatch(isa, s);
    assert FirstDispatches(isa, s, 2) == Dispatch(isa, Dispatch(isa, s));
    DispatchAppends(isa, s);
    DispatchAppends(isa, Dispatch(isa, s));
  }

  lemma NewEntryIs<M>(isa: Isa<M>, s: State<M>, x: Inputs, k: nat)
    requires s.Shape() && Allowed(isa, s, x) && !Flushes(s, x) && !Recovers(s) && k < x.dispatch
    ensures IsNewEntry(isa, s, x, FrontHalf(isa, s, x).w, k)
  {
    hide Dispatch, EntryOf, NewEntry, CanAdvance, Mispredicted, FreeCkpt;
    NewEntryFirst(isa, s, x);
    if x.dispatch == 2 {
      NewEntrySecond(isa, s, x);
      if k == 0 {
        var s1 := Dispatch(isa, s);
        DispatchAppends(isa, s);
        DispatchAppends(isa, s1);
        var i := |s.w.ops|;
        assert Dispatch(isa, s1).w.ops[..i + 1][i] == s1.w.ops[i] && Dispatch(isa, s1).w.phases[..i + 1][i] == s1.w.phases[i];
      }
    }
  }

  // ---- commit ----

  lemma DropView(w: Window)
    requires w.Sized() && |w.ops| > 0
    ensures var w' := CoreRetire.Drop(w); ViewAll(w'.ops, w'.phases) == ViewAll(w.ops, w.phases)[1..]
  {
    hide View;
  }

  lemma RetireView<M>(isa: Isa<M>, s: State<M>, n: nat)
    requires s.Shape() && n <= 2 && n <= |s.w.ops| && forall i :: 0 <= i < n ==> Completed(s, i)
    ensures var w' := RetireMany(isa, s, n).w;
            |w'.ops| == |w'.phases| && ViewAll(w'.ops, w'.phases) == ViewAll(s.w.ops, s.w.phases)[n..] && w'.head == TagAt(s.w.head, n)
  {
    hide ViewAll, View, WriteReg;
    TagAtZero(s.w.head);
    if n >= 1 {
      DropView(s.w);
      if n == 2 {
        DropView(CoreRetire.Drop(s.w));
        TagAtAfterRetire(s.w.head, 1, 1);
      }
    }
  }

  lemma PortsLegal<M>(isa: Isa<M>, s: State<M>, x: Inputs)
    requires Inv(isa, s) && Allowed(isa, s, x)
    ensures ROB.Legal(s.w.head, |s.w.ops|, BufferPorts(isa, s, x))
  {
    hide Outcomes, Operands, Renaming, Stores, Histories, InOrder, Units, Lookup, FreeCkpt, CanAdvance, Reported, NewEntry, Mispredicted;
    if !Flushes(s, x) {
      CommittingIsLive(s, x);
    }
  }

  /** One step of the machine is one edge of the reorder buffer. */
  lemma BufferFollowsPorts<M>(isa: Isa<M>, s: State<M>, x: Inputs)
    requires Inv(isa, s) && Allowed(isa, s, x)
    ensures s.Shape() && ROB.Legal(s.w.head, |s.w.ops|, BufferPorts(isa, s, x))
    ensures var w' := Next(isa, s, x).w;
            && w'.head == ROB.NextHead(s.w.head, BufferPorts(isa, s, x))
            && |w'.ops| == |w'.phases|
            && ViewAll(w'.ops, w'.phases) == ROB.Next(s.w.head, ViewAll(s.w.ops, s.w.phases), BufferPorts(isa, s, x))
  {
    hide Inv, Allowed, FrontHalf, Advance, RetireMany, Fetch, View, NewEntry, Reported, RetireCount, Mispredicted, ROB.Legal, ROB.Completed,
         ROB.DynOf, Flush;
    PortsLegal(isa, s, x);
    ShapeOf(isa, s);
    if Flushes(s, x) {
      FlushWindow(isa, s, x);
    } else {
      FrontFacts(isa, s, x);
      var n := RetireCount(s, x.storeBufferFull);
      var s2 := Advance(isa, FrontHalf(isa, s, x), x);
      AdvanceSizes(isa, FrontHalf(isa, s, x), x);
      FrontKeepsCompleted(isa, s, x);
      RetireView(isa, s2, n);
      NextWindow(isa, s, x);
      MergedView(isa, s, x);
      var p, b := BufferPorts(isa, s, x), if s.br.Some? then s.w.IndexOf(s.br.value) else 0;
      NextIs(s.w.head, ViewAll(s.w.ops, s.w.phases), p, n, Recovers(s), b);
    }
  }

  /** The buffer's step as a cut of the merged list. */
  lemma NextIs(head: Tag, win: seq<ROB.Slot<Op>>, p: ROB.Inputs<Op>, n: nat, cut: bool, b: nat)
    requires ROB.Legal(head, |win|, p) && !p.flush && p.commits == n && p.squash == cut && (cut ==> b == Age(p.squashTag, head))
    ensures var completed := ROB.CompleteAll(head, win, p, |win|);
            && n <= |win| && (cut ==> n <= b + 1 <= |win|)
            && ROB.Next(head, win, p) == (if cut then completed[..b + 1] else completed + ROB.Allocated(p))[n..]
  {
    hide ROB.Completed, ROB.DynOf;
  }

  lemma ShapeOf<M>(isa: Isa<M>, s: State<M>)
    requires Inv(isa, s)
    ensures s.Shape()
  {
  }

  lemma AdvanceSizes<M>(isa: Isa<M>, s: State<M>, x: Inputs)
    requires s.Shape()
    ensures var s' := Advance(isa, s, x); s'.Shape() && |s'.w.ops| == |s.w.ops| && s'.w.head == s.w.head
  {
  }

  lemma FrontKeepsCompleted<M>(isa: Isa<M>, s: State<M>, x: Inputs)
    requires Allowed(isa, s, x) && !Flushes(s, x)
    ensures var n, s2 := RetireCount(s, x.storeBufferFull), Advance(isa, FrontHalf(isa, s, x), x);
            n <= |s2.w.ops| && n <= 2 && forall i :: 0 <= i < n ==> Completed(s2, i)
  {
    hide CanAdvance, Recovers, RetireCount, CanDispatchMany, Advance, FrontHalf;
    var n, s1 := RetireCount(s, x.storeBufferFull), FrontHalf(isa, s, x);
    var s2 := Advance(isa, s1, x);
    forall i | 0 <= i < n
      ensures Completed(s2, i)
    {
      assert Completed(s1, i);
    }
    if n > 0 {
      assert Completed(s2, n - 1);
    }
  }

  lemma FlushWindow<M>(isa: Isa<M>, s: State<M>, x: Inputs)
    requires Allowed(isa, s, x) && Flushes(s, x)
    ensures Next(isa, s, x).w == Window(0, [], [])
  {
  }

  lemma NextWindow<M>(isa: Isa<M>, s: State<M>, x: Inputs)
    requires Allowed(isa, s, x) && !Flushes(s, x)
    ensures Next(isa, s, x).w == RetireMany(isa, Advance(isa, FrontHalf(isa, s, x), x), RetireCount(s, x.storeBufferFull)).w
  {
    hide CanAdvance, Recovers, RetireCount, CanDispatchMany, Advance, FrontHalf, RetireMany;
  }

  lemma MergedOld<M>(isa: Isa<M>, s: State<M>, x: Inputs)
    requires Inv(isa, s) && Allowed(isa, s, x) && !Flushes(s, x) && s.Shape()
    ensures var w' := Advance(isa, FrontHalf(isa, s, x), x).w;
            |w'.ops| == |w'.phases| &&
            forall i :: 0 <= i < |w'.ops| && i < |s.w.ops| ==>
              ViewAll(w'.ops, w'.phases)[i] == ROB.CompleteAll(s.w.head, ViewAll(s.w.ops, s.w.phases), BufferPorts(isa, s, x), |s.w.ops|)[i]
  {
    hide Inv, Allowed, FrontHalf, Advance, View, BufferPorts, RetireCount, Mispredicted, ROB.Completed, BusesOf, CanAdvance;
    FrontFacts(isa, s, x);
    AdvanceSizes(isa, FrontHalf(isa, s, x), x);
    var p, w' := BufferPorts(isa, s, x), Advance(isa, FrontHalf(isa, s, x), x).w;
    forall i | 0 <= i < |w'.ops| && i < |s.w.ops|
      ensures ViewAll(w'.ops, w'.phases)[i] == ROB.CompleteAll(s.w.head, ViewAll(s.w.ops, s.w.phases), p, |s.w.ops|)[i]
    {
      OldEntryView(isa, s, x, i);
    }
  }

  lemma MergedNew<M>(isa: Isa<M>, s: State<M>, x: Inputs)
    requires Inv(isa, s) && Allowed(isa, s, x) && !Flushes(s, x) && s.Shape() && !Recovers(s)
    ensures var p, w' := BufferPorts(isa, s, x), Advance(isa, FrontHalf(isa, s, x), x).w;
            && |w'.ops| == |w'.phases| == |s.w.ops| + x.dispatch && |ROB.Allocated(p)| == x.dispatch
            && forall k :: 0 <= k < x.dispatch ==> ViewAll(w'.ops, w'.phases)[|s.w.ops| + k] == ROB.Allocated(p)[k]
  {
    hide Inv, Allowed, FrontHalf, Advance, View, NewEntry, Reported, RetireCount, Mispredicted, ROB.DynOf, BusesOf, CanAdvance;
    FrontFacts(isa, s, x);
    AdvanceSizes(isa, FrontHalf(isa, s, x), x);
    forall k | 0 <= k < x.dispatch
      ensures var p, w' := BufferPorts(isa, s, x), Advance(isa, FrontHalf(isa, s, x), x).w;
              ViewAll(w'.ops, w'.phases)[|s.w.ops| + k] == ROB.Allocated(p)[k]
    {
      NewEntryView(isa, s, x, k);
    }
  }

  /** Before commit: completed old entries, cut at a recovering branch or followed by the allocated ones. */
  lemma MergedView<M>(isa: Isa<M>, s: State<M>, x: Inputs)
    requires Inv(isa, s) && Allowed(isa, s, x) && !Flushes(s, x) && s.Shape()
    ensures var p, w' := BufferPorts(isa, s, x), Advance(isa, FrontHalf(isa, s, x), x).w;
            var completed := ROB.CompleteAll(s.w.head, ViewAll(s.w.ops, s.w.phases), p, |s.w.ops|);
            && |w'.ops| == |w'.phases|
            && (Recovers(s) ==> s.br.Some? && s.w.IndexOf(s.br.value) < |s.w.ops| && ViewAll(w'.ops, w'.phases) == completed[..s.w.IndexOf(s.br.value) + 1])
            && (!Recovers(s) ==> ViewAll(w'.ops, w'.phases) == completed + ROB.Allocated(p))
  {
    hide Inv, Allowed, FrontHalf, Advance, View, BufferPorts, RetireCount, Mispredicted, ROB.Completed, ROB.Allocated, BusesOf, CanAdvance;
    FrontFacts(isa, s, x);
    AdvanceSizes(isa, FrontHalf(isa, s, x), x);
    MergedOld(isa, s, x);
    if !Recovers(s) {
      MergedNew(isa, s, x);
    }
  }
}
