/** The waiting instructions of the step machine are the reservation stations' contents: one step of the machine
    is one edge of every station, with its insertions, wake-ups, issues and squashes. */
module CoreStations {
  import opened Prelude
  import opened OooPackage
  import opened Isa
  import opened Wakeup
  import opened Dataflow
  import opened Core
  import opened CoreInvariant
  import opened CoreTable
  import CoreAdvance
  import CoreBuffer
  import CoreDispatch
  import CoreRetire
  import CoreTheorems
  import RAT = RenameTable
  import RS = ReservationStation

  // ---- operand lookup across a bundle ----

  /** Slot 1 looks its operands up beside slot 0: a source that slot 0 writes waits for slot 0's tag, any other
      reads the table, the buffer and the registers as they were. */
  lemma SlotOneLookup<M>(isa: Isa<M>, s: State<M>, r: Reg)
    requires s.Shape() && CanDispatch(s) && s.queue[0].instr.cls != Fault
    requires RAT.Agrees(s.rat.current, Renames(s.w.head, s.w.ops, |s.w.ops|))
    ensures Lookup(Dispatch(isa, s), r) ==
            if r != 0 && r == s.queue[0].instr.dst then Operand(false, false, s.w.TagOf(|s.w.ops|), 0) else Lookup(s, r)
  {
    hide Dispatch, FreeCkpt, Execute;
    CoreDispatch.DispatchTable(isa, s);
    AgeOfTagAt(s.w.head, |s.w.ops|);
    if 0 < r && s.rat.current.busy[r] {
      var rs := Renames(s.w.head, s.w.ops, |s.w.ops|);
      var j := RAT.LastWriter(rs, r);
      AgeOfTagAt(s.w.head, j);
    }
  }

  // ---- views ----

  ghost predicate WaitsIn(w: Window, i: nat, cs: set<Class>)
    requires w.Sized()
  {
    i < |w.ops| && w.ops[i].instr.cls in cs && w.phases[i].Waiting?
  }

  function EntryAt(w: Window, i: nat): RS.Entry<Op>
    requires i < |w.ops| && i < |w.phases| && w.phases[i].Waiting?
  {
    RS.Entry(w.TagOf(i), w.phases[i].op1, w.phases[i].op2, w.ops[i])
  }

  /** The station that serves the classes cs. */
  ghost function Station(w: Window, cs: set<Class>): set<RS.Entry<Op>>
    requires w.Sized()
  {
    set i | 0 <= i < |w.ops| && WaitsIn(w, i, cs) :: EntryAt(w, i)
  }

  /** The instruction slot k inserts into the station, if it goes there. */
  ghost function Insert<M>(isa: Isa<M>, s: State<M>, x: Inputs, cs: set<Class>, k: nat): Option<RS.Entry<Op>>
    requires s.Shape()
  {
    var w := CoreBuffer.FirstDispatches(isa, s, k + 1).w;
    if k < Dispatched(s, x) && |w.ops| > 0 && WaitsIn(w, |w.ops| - 1, cs) then Some(EntryAt(w, |w.ops| - 1)) else None
  }

  ghost function StationPorts<M>(isa: Isa<M>, s: State<M>, x: Inputs, cs: set<Class>): RS.Inputs<Op>
    requires s.Shape()
  {
    RS.Inputs(Flushes(s, x), Recovers(s) && !Flushes(s, x), if s.br.Some? then s.br.value else 0,
              Insert(isa, s, x, cs, 0), Insert(isa, s, x, cs, 1), BusesOf(s, x), WakesOf(s, x), s.w.head, true, true)
  }

  /** The tags that leave the station for their unit this cycle. */
  ghost function IssuedFrom<M>(s: State<M>, x: Inputs): set<Tag>
    requires s.Shape()
  {
    set i | 0 <= i < |s.w.ops| && x.issue.Selects(i) :: s.w.TagOf(i)
  }

  // ---- wake-ups before and after the front half ----

  lemma WakesSame<M>(isa: Isa<M>, s: State<M>, x: Inputs)
    requires Inv(isa, s) && Allowed(isa, s, x) && !Flushes(s, x)
    ensures WakesOf(FrontHalf(isa, s, x), x) == WakesOf(s, x)
  {
    hide Inv, Allowed, FrontHalf;
    CoreBuffer.FrontFacts(isa, s, x);
  }

  /** A surviving operand wakes alike whether or not squashed results are also on the buses. */
  lemma OperandWakesSame<M>(isa: Isa<M>, s: State<M>, x: Inputs, i: nat, r: Reg, o: Operand, spec: bool)
    requires Inv(isa, s) && Allowed(isa, s, x) && !Flushes(s, x) && i < |s.w.ops| && s.w.phases[i].Waiting?
    requires Recovers(s) ==> i <= s.w.IndexOf(s.br.value)
    requires OperandOk(isa, s.Flow(), s.w, s.alu0, s.alu1, i, r, o)
    ensures AllWakes(o, BusesOf(FrontHalf(isa, s, x), x), spec, WakesOf(FrontHalf(isa, s, x), x)) == AllWakes(o, BusesOf(s, x), spec, WakesOf(s, x))
  {
    hide Inv, Allowed, FrontHalf, AllWakes, BusesOf, WakesOf, Writes, FlowAt, Spec;
    WakesSame(isa, s, x);
    var s1 := FrontHalf(isa, s, x);
    if o.ready && !o.spec {
      CoreAdvance.PresentStays(o, BusesOf(s, x), spec, WakesOf(s, x));
      CoreAdvance.PresentStays(o, BusesOf(s1, x), spec, WakesOf(s, x));
    } else {
      var j := s.w.IndexOf(o.tag);
      InvMeans(isa, s);
      CoreAdvance.WritesOlder(s.w.ops, i, r, j);
      TagAtAge(o.tag, s.w.head);
      CoreBuffer.SameBuses(isa, s, x, j);
      BothAgree(isa, s, x, o.tag);
      var v := Spec(isa, s.Flow(), s.w.ops, j).value;
      WakesCapture(o, BusesOf(s, x), spec, WakesOf(s, x), v);
      WakesCapture(o, BusesOf(s1, x), spec, WakesOf(s, x), v);
    }
  }

  /** What either set of buses says about an older instruction is that instruction's value. */
  lemma BothAgree<M>(isa: Isa<M>, s: State<M>, x: Inputs, t: Tag)
    requires Inv(isa, s) && Allowed(isa, s, x) && !Flushes(s, x) && s.w.IndexOf(t) < |s.w.ops|
    requires Recovers(s) ==> s.w.IndexOf(t) < s.w.IndexOf(s.br.value)
    ensures BusesOf(s, x).Agree(t, Spec(isa, s.Flow(), s.w.ops, s.w.IndexOf(t)).value)
    ensures BusesOf(FrontHalf(isa, s, x), x).Agree(t, Spec(isa, s.Flow(), s.w.ops, s.w.IndexOf(t)).value)
  {
    hide Inv, Allowed, FrontHalf, BusesOf, Outcomes, Spec;
    var s1 := FrontHalf(isa, s, x);
    InvMeans(isa, s);
    CoreTheorems.FrontHalfKeepsInv(isa, s, x);
    InvMeans(isa, s1);
    CoreAdvance.BusesAreRight(isa, s, x);
    CoreAdvance.BusesAreRight(isa, s1, x);
    CoreBuffer.FrontFacts(isa, s, x);
    SpecPrefix(isa, s.Flow(), s.w.ops, s1.w.ops, s.w.IndexOf(t));
    NotCarriedAgrees(BusesOf(s, x), t, Spec(isa, s.Flow(), s.w.ops, s.w.IndexOf(t)).value);
    NotCarriedAgrees(BusesOf(s1, x), t, Spec(isa, s.Flow(), s.w.ops, s.w.IndexOf(t)).value);
  }

  lemma SpecPrefix<M>(isa: Isa<M>, f: Flow<M>, ops: seq<Op>, ops': seq<Op>, i: nat)
    requires f.Valid() && i < |ops| && i < |ops'| && forall k :: 0 <= k <= i ==> ops[k] == ops'[k]
    ensures Spec(isa, f, ops, i) == Spec(isa, f, ops', i)
  {
    hide FlowAt, ExecuteIn;
    FlowPrefix(isa, f, ops, ops', i);
  }

  lemma NotCarriedAgrees(b: Buses, t: Tag, v: Word)
    ensures !b.Carries(t) ==> b.Agree(t, v)
  {
  }

  lemma InvMeans<M>(isa: Isa<M>, s: State<M>)
    requires Inv(isa, s)
    ensures s.Shape() && Outcomes(isa, s.Flow(), s.w) && Units(s)
  {
  }

  lemma InvOperands<M>(isa: Isa<M>, s: State<M>, i: nat)
    requires Inv(isa, s) && i < |s.w.ops| && s.w.phases[i].Waiting?
    ensures OperandOk(isa, s.Flow(), s.w, s.alu0, s.alu1, i, s.w.ops[i].instr.src1, s.w.phases[i].op1)
    ensures OperandOk(isa, s.Flow(), s.w, s.alu0, s.alu1, i, s.w.ops[i].instr.src2, s.w.phases[i].op2)
  {
    hide OperandOk, InOrder, Renaming, Units, Stores, Histories, Outcomes;
  }

  // ---- entry by entry ----

  /** A waiting entry of the old window after the step, as the station's wake-up computes it. */
  lemma OldEntryWakes<M>(isa: Isa<M>, s: State<M>, x: Inputs, cs: set<Class>, spec: bool, i: nat)
    requires Inv(isa, s) && s.Shape() && Allowed(isa, s, x) && !Flushes(s, x) && i < |s.w.ops| && (Recovers(s) ==> i <= s.w.IndexOf(s.br.value))
    requires forall c :: c in cs ==> SpecStation(c) == spec
    requires s.w.ops[i].instr.cls in cs
    ensures var w' := Advance(isa, FrontHalf(isa, s, x), x).w;
            && i < |w'.ops| && i < |w'.phases| && w'.ops[i] == s.w.ops[i] && w'.head == s.w.head
            && (w'.phases[i].Waiting? <==> s.w.phases[i].Waiting? && !x.issue.Selects(i))
            && (w'.phases[i].Waiting? ==> EntryAt(w', i) == RS.Woken(EntryAt(s.w, i), StationPorts(isa, s, x, cs), spec))
  {
    hide Inv, Allowed, FrontHalf, BusesOf, WakesOf, AllWakes, Resolve, CanAdvance, Execute, Insert, OperandOk, Apply;
    var s1 := FrontHalf(isa, s, x);
    CoreBuffer.FrontFacts(isa, s, x);
    CoreAdvance.PhaseMoves(isa, s, s1, x, i);
    assert Advance(isa, s1, x).w.phases[i] == AdvanceOne(isa, s1, x, i);
    if s.w.phases[i].Waiting? {
      BranchNotWaiting(s, i);
      InvOperands(isa, s, i);
      OperandWakesSame(isa, s, x, i, s.w.ops[i].instr.src1, s.w.phases[i].op1, spec);
      OperandWakesSame(isa, s, x, i, s.w.ops[i].instr.src2, s.w.phases[i].op2, spec);
    }
  }

  lemma BranchNotWaiting<M>(s: State<M>, i: nat)
    requires s.Shape() && i < |s.w.ops| && s.w.phases[i].Waiting?
    ensures Recovers(s) ==> i != s.w.IndexOf(s.br.value)
  {
  }

  /** A freshly inserted entry after the step: woken on insertion. */
  lemma NewEntryWakes<M>(isa: Isa<M>, s: State<M>, x: Inputs, cs: set<Class>, spec: bool, k: nat, w': Window, i: nat)
    requires Inv(isa, s) && s.Shape() && Allowed(isa, s, x) && !Flushes(s, x) && !Recovers(s) && k < x.dispatch && i == |s.w.ops| + k
    requires w' == Advance(isa, FrontHalf(isa, s, x), x).w && w'.Sized()
    requires forall c :: c in cs ==> SpecStation(c) == spec
    ensures WaitsIn(w', i, cs) == Insert(isa, s, x, cs, k).Some?
    ensures WaitsIn(w', i, cs) ==> EntryAt(w', i) == RS.Woken(Insert(isa, s, x, cs, k).value, StationPorts(isa, s, x, cs), spec)
  {
    hide Inv, Allowed, FrontHalf, BusesOf, WakesOf, AllWakes, Resolve, CanAdvance, Execute, CoreBuffer.FirstDispatches, Apply;
    var s1 := FrontHalf(isa, s, x);
    CoreBuffer.FrontFacts(isa, s, x);
    CoreBuffer.AdvanceSizes(isa, s1, x);
    CoreAdvance.PhaseMoves(isa, s, s1, x, i);
    CoreBuffer.NotSelected(s, s1, x, i);
    assert Advance(isa, s1, x).w.phases[i] == AdvanceOne(isa, s1, x, i);
    InsertIs(isa, s, x, k);
    FrontBuses(isa, s, x);
    WakesSame(isa, s, x);
  }

  lemma FrontBuses<M>(isa: Isa<M>, s: State<M>, x: Inputs)
    requires Inv(isa, s) && Allowed(isa, s, x) && !Flushes(s, x) && !Recovers(s)
    ensures BusesOf(FrontHalf(isa, s, x), x) == BusesOf(s, x)
  {
    hide InOrder, Outcomes, Operands, Renaming, Stores, Histories, CanAdvance, BusesOf, DispatchMany, CanDispatchMany;
    CoreBuffer.SameBusesDispatch(isa, s, x);
  }

  lemma InsertIs<M>(isa: Isa<M>, s: State<M>, x: Inputs, k: nat)
    requires Inv(isa, s) && s.Shape() && Allowed(isa, s, x) && !Flushes(s, x) && !Recovers(s) && k < x.dispatch
    ensures var w, f := CoreBuffer.FirstDispatches(isa, s, k + 1).w, FrontHalf(isa, s, x).w;
            var i := |s.w.ops| + k;
            && |w.ops| == i + 1 && w.head == s.w.head && i < |f.ops| && f.head == s.w.head
            && w.ops[i] == f.ops[i] && w.phases[i] == f.phases[i] && !f.phases[i].Executing?
            && k < Dispatched(s, x)
  {
    hide InOrder, Outcomes, Operands, Renaming, Stores, Histories, Units, Lookup, Execute, FreeCkpt, CanAdvance;
    assert CoreBuffer.FirstDispatches(isa, s, 0) == s;
    assert CoreBuffer.FirstDispatches(isa, s, 1) == Dispatch(isa, s);
    if x.dispatch == 2 {
      assert CoreBuffer.FirstDispatches(isa, s, 2) == Dispatch(isa, Dispatch(isa, s));
    }
  }

  // ---- the set ----

  /** Committing takes nothing out of a station. */
  lemma RetireStation<M>(isa: Isa<M>, s: State<M>, cs: set<Class>)
    requires s.Shape() && Completed(s, 0)
    ensures Station(Retire(isa, s).w, cs) == Station(s.w, cs)
  {
    hide WriteReg;
    var w, w' := s.w, Retire(isa, s).w;
    assert w' == CoreRetire.Drop(w);
    forall e | e in Station(w, cs)
      ensures e in Station(w', cs)
    {
      var i :| 0 <= i < |w.ops| && WaitsIn(w, i, cs) && EntryAt(w, i) == e;
      CoreRetire.DropTag(w, i - 1);
      assert WaitsIn(w', i - 1, cs) && EntryAt(w', i - 1) == e;
    }
    forall e | e in Station(w', cs)
      ensures e in Station(w, cs)
    {
      var i :| 0 <= i < |w'.ops| && WaitsIn(w', i, cs) && EntryAt(w', i) == e;
      CoreRetire.DropTag(w, i);
      assert WaitsIn(w, i + 1, cs) && EntryAt(w, i + 1) == e;
    }
  }

  lemma RetireManyStation<M>(isa: Isa<M>, s: State<M>, n: nat, cs: set<Class>)
    requires s.Shape() && n <= 2 && forall i :: 0 <= i < n ==> Completed(s, i)
    ensures Station(RetireMany(isa, s, n).w, cs) == Station(s.w, cs)
  {
    hide Station, Retire;
    if n >= 1 {
      RetireStation(isa, s, cs);
      if n == 2 {
        RetireStation(isa, Retire(isa, s), cs);
      }
    }
  }

  lemma LeavesMeans<M>(isa: Isa<M>, s: State<M>, x: Inputs, cs: set<Class>, i: nat)
    requires s.Shape() && i < |s.w.ops|
    ensures RS.Leaves(s.w.TagOf(i), StationPorts(isa, s, x, cs), IssuedFrom(s, x)) <==>
              x.issue.Selects(i) || (Recovers(s) && !Flushes(s, x) && i > s.w.IndexOf(s.br.value))
  {
    hide Mispredicted, Issue.Selects, Insert, BusesOf, WakesOf;
    AgeOfTagAt(s.w.head, i);
    if s.w.TagOf(i) in IssuedFrom(s, x) {
      var j :| 0 <= j < |s.w.ops| && x.issue.Selects(j) && s.w.TagOf(j) == s.w.TagOf(i);
      TagsDistinct(s.w.head, i, j);
    }
  }

  /** Everything waiting after the step was waiting and stays, or was inserted. */
  lemma AfterIsNext<M>(isa: Isa<M>, s: State<M>, x: Inputs, cs: set<Class>, spec: bool, i: nat)
    requires Inv(isa, s) && s.Shape() && Allowed(isa, s, x) && !Flushes(s, x) && forall c :: c in cs ==> SpecStation(c) == spec
    requires Advance(isa, FrontHalf(isa, s, x), x).w.Sized() && WaitsIn(Advance(isa, FrontHalf(isa, s, x), x).w, i, cs)
    ensures EntryAt(Advance(isa, FrontHalf(isa, s, x), x).w, i) in
              RS.Next(Station(s.w, cs), StationPorts(isa, s, x, cs), spec, IssuedFrom(s, x))
  {
    hide Inv, Allowed, FrontHalf, Advance, RS.Woken, RS.Leaves, IssuedFrom, BusesOf, WakesOf, Insert, CanAdvance, Mispredicted;
    var s1 := FrontHalf(isa, s, x);
    CoreBuffer.FrontFacts(isa, s, x);
    CoreBuffer.AdvanceSizes(isa, s1, x);
    if i < |s.w.ops| {
      CoreAdvance.PhaseMoves(isa, s, s1, x, i);
      OldEntryWakes(isa, s, x, cs, spec, i);
      LeavesMeans(isa, s, x, cs, i);
      assert WaitsIn(s.w, i, cs) && EntryAt(s.w, i) in Station(s.w, cs);
    } else {
      NewEntryWakes(isa, s, x, cs, spec, i - |s.w.ops|, Advance(isa, s1, x).w, i);
    }
  }

  /** And the other way round: what stays, or is inserted, is waiting after the step. */
  lemma StayingIsAfter<M>(isa: Isa<M>, s: State<M>, x: Inputs, cs: set<Class>, spec: bool, i: nat)
    requires Inv(isa, s) && s.Shape() && Allowed(isa, s, x) && !Flushes(s, x) && forall c :: c in cs ==> SpecStation(c) == spec
    requires WaitsIn(s.w, i, cs) && !RS.Leaves(s.w.TagOf(i), StationPorts(isa, s, x, cs), IssuedFrom(s, x))
    ensures Advance(isa, FrontHalf(isa, s, x), x).w.Sized()
    ensures RS.Woken(EntryAt(s.w, i), StationPorts(isa, s, x, cs), spec) in Station(Advance(isa, FrontHalf(isa, s, x), x).w, cs)
  {
    hide Inv, Allowed, FrontHalf, Advance, RS.Woken, RS.Leaves, IssuedFrom, StationPorts, CanAdvance, Mispredicted;
    CoreBuffer.FrontFacts(isa, s, x);
    CoreBuffer.AdvanceSizes(isa, FrontHalf(isa, s, x), x);
    LeavesMeans(isa, s, x, cs, i);
    OldEntryWakes(isa, s, x, cs, spec, i);
    var w' := Advance(isa, FrontHalf(isa, s, x), x).w;
    assert WaitsIn(w', i, cs) && EntryAt(w', i) in Station(w', cs);
  }

  lemma InsertedIsAfter<M>(isa: Isa<M>, s: State<M>, x: Inputs, cs: set<Class>, spec: bool, k: nat)
    requires Inv(isa, s) && s.Shape() && Allowed(isa, s, x) && !Flushes(s, x) && forall c :: c in cs ==> SpecStation(c) == spec
    requires Insert(isa, s, x, cs, k).Some?
    ensures Advance(isa, FrontHalf(isa, s, x), x).w.Sized()
    ensures RS.Woken(Insert(isa, s, x, cs, k).value, StationPorts(isa, s, x, cs), spec) in Station(Advance(isa, FrontHalf(isa, s, x), x).w, cs)
  {
    hide Inv, Allowed, FrontHalf, Advance, RS.Woken, StationPorts, CanAdvance, Mispredicted, Insert;
    InsertMeans(isa, s, x, cs, k);
    CoreBuffer.FrontFacts(isa, s, x);
    CoreBuffer.AdvanceSizes(isa, FrontHalf(isa, s, x), x);
    var w', i := Advance(isa, FrontHalf(isa, s, x), x).w, |s.w.ops| + k;
    NewEntryWakes(isa, s, x, cs, spec, k, w', i);
    assert WaitsIn(w', i, cs) && EntryAt(w', i) in Station(w', cs);
  }

  lemma InsertMeans<M>(isa: Isa<M>, s: State<M>, x: Inputs, cs: set<Class>, k: nat)
    requires s.Shape() && Insert(isa, s, x, cs, k).Some?
    ensures !Recovers(s) && k < x.dispatch
  {
    hide Mispredicted, CoreBuffer.FirstDispatches;
  }

  /** One step of the machine is one edge of every reservation station. */
  lemma StationFollowsPorts<M>(isa: Isa<M>, s: State<M>, x: Inputs, cs: set<Class>, spec: bool)
    requires Inv(isa, s) && Allowed(isa, s, x) && forall c :: c in cs ==> SpecStation(c) == spec
    ensures s.Shape() && Next(isa, s, x).w.Sized()
    ensures Station(Next(isa, s, x).w, cs) == RS.Next(Station(s.w, cs), StationPorts(isa, s, x, cs), spec, IssuedFrom(s, x))
  {
    hide Inv, Allowed, FrontHalf, Advance, Flush, Fetch, RetireMany, RS.Woken, RS.Leaves, IssuedFrom, BusesOf, WakesOf, Insert, RetireCount,
         Mispredicted, CanAdvance;
    InvMeans(isa, s);
    if Flushes(s, x) {
      CoreBuffer.FlushWindow(isa, s, x);
    } else {
      CoreBuffer.NextWindow(isa, s, x);
      CoreBuffer.FrontFacts(isa, s, x);
      CoreBuffer.AdvanceSizes(isa, FrontHalf(isa, s, x), x);
      CoreBuffer.FrontKeepsCompleted(isa, s, x);
      var s2 := Advance(isa, FrontHalf(isa, s, x), x);
      RetireManyStation(isa, s2, RetireCount(s, x.storeBufferFull), cs);
      BothWays(isa, s, x, cs, spec);
    }
  }

  lemma BothWays<M>(isa: Isa<M>, s: State<M>, x: Inputs, cs: set<Class>, spec: bool)
    requires Inv(isa, s) && s.Shape() && Allowed(isa, s, x) && !Flushes(s, x) && forall c :: c in cs ==> SpecStation(c) == spec
    requires Advance(isa, FrontHalf(isa, s, x), x).w.Sized()
    ensures Station(Advance(isa, FrontHalf(isa, s, x), x).w, cs) ==
            RS.Next(Station(s.w, cs), StationPorts(isa, s, x, cs), spec, IssuedFrom(s, x))
  {
    hide Inv, Allowed, FrontHalf, Advance, RS.Woken, RS.Leaves, IssuedFrom, BusesOf, WakesOf, Insert, Mispredicted, CanAdvance;
    var w', p := Advance(isa, FrontHalf(isa, s, x), x).w, StationPorts(isa, s, x, cs);
    forall e | e in Station(w', cs)
      ensures e in RS.Next(Station(s.w, cs), p, spec, IssuedFrom(s, x))
    {
      var i :| 0 <= i < |w'.ops| && WaitsIn(w', i, cs) && EntryAt(w', i) == e;
      AfterIsNext(isa, s, x, cs, spec, i);
    }
    forall e | e in RS.Next(Station(s.w, cs), p, spec, IssuedFrom(s, x))
      ensures e in Station(w', cs)
    {
      if Insert(isa, s, x, cs, 0).Some? && e == RS.Woken(Insert(isa, s, x, cs, 0).value, p, spec) {
        InsertedIsAfter(isa, s, x, cs, spec, 0);
      } else if Insert(isa, s, x, cs, 1).Some? && e == RS.Woken(Insert(isa, s, x, cs, 1).value, p, spec) {
        InsertedIsAfter(isa, s, x, cs, spec, 1);
      } else {
        var f :| f in Station(s.w, cs) && !RS.Leaves(f.tag, p, IssuedFrom(s, x)) && RS.Woken(f, p, spec) == e;
        var i :| 0 <= i < |s.w.ops| && WaitsIn(s.w, i, cs) && EntryAt(s.w, i) == f;
        StayingIsAfter(isa, s, x, cs, spec, i);
      }
    }
  }

  // ---- what the stations require, and what they may select ----

  /** Dispatch never inserts a tag that is still waiting in a station. */
  lemma InsertedTagsAreFresh<M>(isa: Isa<M>, s: State<M>, x: Inputs, cs: set<Class>)
    requires Inv(isa, s) && s.Shape() && Allowed(isa, s, x)
    ensures RS.FreshFor(Station(s.w, cs), StationPorts(isa, s, x, cs))
  {
    hide Inv, Allowed, Insert, BusesOf, WakesOf, Flushes, Mispredicted;
    var p := StationPorts(isa, s, x, cs);
    InsertedTag(isa, s, x, cs, 0);
    InsertedTag(isa, s, x, cs, 1);
    forall e | e in Station(s.w, cs)
      ensures p.insert0.Some? ==> e.tag != p.insert0.value.tag
      ensures p.insert1.Some? ==> e.tag != p.insert1.value.tag
    {
      var i :| 0 <= i < |s.w.ops| && WaitsIn(s.w, i, cs) && EntryAt(s.w, i) == e;
      AgeOfTagAt(s.w.head, i);
    }
  }

  lemma InsertedTag<M>(isa: Isa<M>, s: State<M>, x: Inputs, cs: set<Class>, k: nat)
    requires Inv(isa, s) && s.Shape() && Allowed(isa, s, x) && k < 2
    ensures Insert(isa, s, x, cs, k).Some? ==>
              |s.w.ops| + k < ROB_SIZE && s.w.IndexOf(Insert(isa, s, x, cs, k).value.tag) == |s.w.ops| + k
  {
    hide Inv, Allowed, FrontHalf, CoreBuffer.FirstDispatches;
    if Insert(isa, s, x, cs, k).Some? {
      NotFlushed(isa, s, x, cs, k);
      InsertIs(isa, s, x, k);
      FrontSize(isa, s, x);
      AgeOfTagAt(s.w.head, |s.w.ops| + k);
    }
  }

  lemma NotFlushed<M>(isa: Isa<M>, s: State<M>, x: Inputs, cs: set<Class>, k: nat)
    requires s.Shape() && Insert(isa, s, x, cs, k).Some?
    ensures !Flushes(s, x) && !Recovers(s) && k < x.dispatch
  {
    hide CoreBuffer.FirstDispatches, Flushes, Mispredicted;
  }

  lemma FrontSize<M>(isa: Isa<M>, s: State<M>, x: Inputs)
    requires Allowed(isa, s, x) && !Flushes(s, x)
    ensures |FrontHalf(isa, s, x).w.ops| <= ROB_SIZE
  {
    hide Allowed;
  }

  /** Instruction i waits in the station of the classes cs, ready, and no recovery removes it this cycle. */
  ghost predicate Offered<M>(s: State<M>, i: nat, cs: set<Class>)
    requires s.Shape()
  {
    WaitsIn(s.w, i, cs) && EntryAt(s.w, i).Ready() && (Recovers(s) ==> i <= s.w.IndexOf(s.br.value))
  }

  const NO_ISSUE := Issue(None, None, None, None, {})

  /** The machine takes whatever its stations select: ready entries (RS.Clock: issued0, issued1), the memory
      station's oldest one, and from the ALU station a second one only beside a first one. */
  lemma SelectionIsAllowed<M>(isa: Isa<M>, s: State<M>, x: Inputs)
    requires Inv(isa, s) && s.Shape() && !Flushes(s, x) && Allowed(isa, s, x.(issue := NO_ISSUE))
    requires x.issue.alu0.Some? ==> Offered(s, x.issue.alu0.value, {Alu})
    requires x.issue.alu1.Some? ==> x.issue.alu0.Some? && x.issue.alu1 != x.issue.alu0 && Offered(s, x.issue.alu1.value, {Alu})
    requires x.issue.br.Some? ==> Offered(s, x.issue.br.value, {Branch})
    requires x.issue.mem.Some? ==> !Recovers(s) && Offered(s, x.issue.mem.value, {Load, Store})
    requires x.issue.mem.Some? ==> RS.IsOldest(Station(s.w, {Load, Store}), EntryAt(s.w, x.issue.mem.value), s.w.head)
    requires forall i :: i in x.issue.others ==> Offered(s, i, {Mul, LongLatency})
    ensures Allowed(isa, s, x)
  {
    hide Inv, Station, EntryAt, CanDispatchMany, DispatchMany, Recover, Offered, RS.IsOldest, Grantable;
    var y := x.(issue := NO_ISSUE);
    var s1 := FrontHalf(isa, s, y);
    CoreBuffer.FrontFacts(isa, s, y);
    forall i: nat, cs | Offered(s, i, cs)
      ensures i < |s.w.ops| && ReadyIn(s1, i, cs)
    {
      OfferedIsReady(isa, s, y, i, cs);
    }
    if x.issue.mem.Some? {
      OldestIsOldest(isa, s, y, x.issue.mem.value);
    }
  }

  lemma OfferedIsReady<M>(isa: Isa<M>, s: State<M>, y: Inputs, i: nat, cs: set<Class>)
    requires Inv(isa, s) && s.Shape() && !Flushes(s, y) && Allowed(isa, s, y) && Offered(s, i, cs)
    ensures i < |s.w.ops| && ReadyIn(FrontHalf(isa, s, y), i, cs)
  {
    hide Inv, Allowed, FrontHalf, Mispredicted;
    CoreBuffer.FrontFacts(isa, s, y);
  }

  lemma OldestIsOldest<M>(isa: Isa<M>, s: State<M>, y: Inputs, i: nat)
    requires Inv(isa, s) && s.Shape() && !Flushes(s, y) && Allowed(isa, s, y) && !Recovers(s) && WaitsIn(s.w, i, {Load, Store})
    requires RS.IsOldest(Station(s.w, {Load, Store}), EntryAt(s.w, i), s.w.head)
    ensures FrontHalf(isa, s, y).w.Sized() && i < |FrontHalf(isa, s, y).w.ops| && OldestMem(FrontHalf(isa, s, y), i)
  {
    hide Inv, Allowed, FrontHalf, Mispredicted, Age;
    CoreBuffer.FrontFacts(isa, s, y);
    forall k | 0 <= k < i && s.w.ops[k].IsMem()
      ensures !s.w.phases[k].Waiting?
    {
      if s.w.phases[k].Waiting? {
        assert WaitsIn(s.w, k, {Load, Store});
        assert EntryAt(s.w, k) in Station(s.w, {Load, Store});
        AgeOfTagAt(s.w.head, k);
        AgeOfTagAt(s.w.head, i);
      }
    }
  }
}
