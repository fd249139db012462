/** The step machine drives the alias table exactly as the design wires it: its dispatch, recovery and commit
    parts together are one edge of the table's ports. */
module CoreTable {
  import opened Prelude
  import opened OooPackage
  import opened Isa
  import opened Core
  import opened CoreInvariant
  import RAT = RenameTable

  predicate Flushes<M>(s: State<M>, x: Inputs) {
    TakesTrap(s) || TakesInterrupt(s, x)
  }

  function Dispatched<M>(s: State<M>, x: Inputs): nat {
    if Flushes(s, x) || Recovers(s) || x.dispatch > |s.queue| then 0 else x.dispatch
  }

  function Committing<M>(s: State<M>, x: Inputs): nat {
    if Flushes(s, x) then 0 else RetireCount(s, x.storeBufferFull)
  }

  function SetPort<M>(s: State<M>, x: Inputs, k: nat): RAT.Rename {
    if k < Dispatched(s, x) then RAT.Rename(s.queue[k].instr.dst, s.w.TagOf(|s.w.ops| + k)) else RAT.NO_RENAME
  }

  function ClearPort<M>(s: State<M>, x: Inputs, k: nat): RAT.Rename {
    if k < Committing(s, x) then RAT.Rename(s.w.ops[k].instr.dst, TagAt(s.w.head, k)) else RAT.NO_RENAME
  }

  predicate InsertsBranch<M>(s: State<M>, x: Inputs, k: nat) {
    k < Dispatched(s, x) && s.queue[k].instr.cls == Branch
  }

  /** The table's ports in state s. */
  function TablePorts<M>(s: State<M>, x: Inputs): RAT.Inputs {
    RAT.Inputs(
      Flushes(s, x), SetPort(s, x, 0), SetPort(s, x, 1), ClearPort(s, x, 0), ClearPort(s, x, 1),
      if InsertsBranch(s, x, 0) || InsertsBranch(s, x, 1) then Some(FreeCkpt(s.used)) else None,
      InsertsBranch(s, x, 0),
      if Recovers(s) && !Flushes(s, x) then Some(s.w.ops[s.w.IndexOf(s.br.value)].ckpt) else None)
  }

  // ---- maps ----

  /** A clear and a set of different tags do not disturb each other. */
  lemma ClearAfterSet(m: RAT.RegMap, e: RAT.Rename, c: RAT.Rename)
    requires m.Valid() && (e.dst != 0 && c.dst == e.dst ==> e.tag != c.tag)
    ensures RAT.ClearMap(RAT.SetMap(m, e), c) == RAT.SetMap(RAT.ClearMap(m, c), e)
  {
  }

  lemma NoPort(m: RAT.RegMap)
    requires m.Valid()
    ensures RAT.ClearMap(m, RAT.NO_RENAME) == m && RAT.SetMap(m, RAT.NO_RENAME) == m
  {
  }

  function ClearTwo(m: RAT.RegMap, c0: RAT.Rename, c1: RAT.Rename): (m': RAT.RegMap)
    requires m.Valid()
    ensures m'.Valid()
  {
    RAT.ClearMap(RAT.ClearMap(m, c0), c1)
  }

  predicate Apart(e: RAT.Rename, c: RAT.Rename) {
    e.dst != 0 && c.dst != 0 ==> e.tag != c.tag
  }

  lemma ClearTwoAfterSet(m: RAT.RegMap, e: RAT.Rename, c0: RAT.Rename, c1: RAT.Rename)
    requires m.Valid() && Apart(e, c0) && Apart(e, c1)
    ensures ClearTwo(RAT.SetMap(m, e), c0, c1) == RAT.SetMap(ClearTwo(m, c0, c1), e)
  {
    hide RAT.ClearMap, RAT.SetMap;
    ClearAfterSet(m, e, c0);
    ClearAfterSet(RAT.ClearMap(m, c0), e, c1);
  }

  // ---- the machine's table, part by part ----

  /** The table after the machine's dispatch of up to two renames, with the branch's checkpoint. */
  function Renamed(t: RAT.Table, set0: RAT.Rename, set1: RAT.Rename, save: Option<nat>, after0: bool): (t': RAT.Table)
    requires t.Valid() && (save.Some? ==> save.value < RAT.CKPTS)
    ensures t'.Valid()
  {
    var m0 := RAT.SetMap(t.current, set0);
    var m1 := RAT.SetMap(m0, set1);
    RAT.Table(m1, if save.Some? then t.saved[save.value := if after0 then m0 else m1] else t.saved)
  }

  function ClearTable(t: RAT.Table, c0: RAT.Rename, c1: RAT.Rename): (t': RAT.Table)
    requires t.Valid()
    ensures t'.Valid()
  {
    RAT.ClearAll(RAT.ClearAll(t, c0), c1)
  }

  lemma ClearTableAt(t: RAT.Table, c0: RAT.Rename, c1: RAT.Rename)
    requires t.Valid()
    ensures ClearTable(t, c0, c1).current == ClearTwo(t.current, c0, c1)
    ensures forall k :: 0 <= k < RAT.CKPTS ==> ClearTable(t, c0, c1).saved[k] == ClearTwo(t.saved[k], c0, c1)
  {
    hide RAT.ClearMap;
  }

  /** Renaming first and clearing second, as the machine does it, is the table's edge, which clears first. */
  lemma RenameThenClear(t: RAT.Table, x: RAT.Inputs)
    requires t.Valid() && x.Valid() && !x.flush && x.restore.None?
    requires Apart(x.set0, x.clear0) && Apart(x.set0, x.clear1) && Apart(x.set1, x.clear0) && Apart(x.set1, x.clear1)
    ensures ClearTable(Renamed(t, x.set0, x.set1, x.save, x.saveAfterSlot0), x.clear0, x.clear1) == RAT.Edge(t, x)
  {
    hide RAT.ClearMap, RAT.SetMap, RAT.ClearEach, RAT.ClearAll, Apart;
    var m0 := RAT.SetMap(t.current, x.set0);
    var m1 := RAT.SetMap(m0, x.set1);
    ClearTwoAfterSet(t.current, x.set0, x.clear0, x.clear1);
    ClearTwoAfterSet(m0, x.set1, x.clear0, x.clear1);
    var t1 := Renamed(t, x.set0, x.set1, x.save, x.saveAfterSlot0);
    ClearTableAt(t1, x.clear0, x.clear1);
    var t2 := ClearTable(t1, x.clear0, x.clear1);
    var cleared := RAT.ClearEach(RAT.ClearEach(t.saved, x.clear0), x.clear1);
    forall k | 0 <= k < RAT.CKPTS
      ensures t2.saved[k] == RAT.NextSaved(t, x)[k]
    {
      assert cleared[k] == ClearTwo(t.saved[k], x.clear0, x.clear1);
    }
    assert t2.saved == RAT.NextSaved(t, x);
  }

  lemma RestoreThenClear(t: RAT.Table, x: RAT.Inputs)
    requires t.Valid() && x.Valid() && !x.flush && x.restore.Some? && x.save.None?
    ensures ClearTable(RAT.Restore(t, x.restore.value), x.clear0, x.clear1) == RAT.Edge(t, x)
  {
    hide RAT.ClearMap, RAT.SetMap, RAT.ClearEach, RAT.ClearAll;
    var t1 := RAT.Restore(t, x.restore.value);
    ClearTableAt(t1, x.clear0, x.clear1);
    var t2 := ClearTable(t1, x.clear0, x.clear1);
    var cleared := RAT.ClearEach(RAT.ClearEach(t.saved, x.clear0), x.clear1);
    forall k | 0 <= k < RAT.CKPTS
      ensures t2.saved[k] == RAT.NextSaved(t, x)[k]
    {
      assert cleared[k] == ClearTwo(t.saved[k], x.clear0, x.clear1);
    }
    assert t2.saved == RAT.NextSaved(t, x);
  }

  lemma FlushIsEdge(t: RAT.Table, x: RAT.Inputs)
    requires t.Valid() && x.Valid() && x.flush && x.restore.None?
    requires x.set0 == x.set1 == x.clear0 == x.clear1 == RAT.NO_RENAME
    ensures RAT.FlushTable(t) == RAT.Edge(t, x)
  {
    hide RAT.ClearMap, RAT.SetMap, RAT.ForgetEach;
    NoPort(t.current);
  }

  // ---- the machine ----

  /** Two branches are never dispatched together, because a fetch bundle holds at most one. */
  lemma OneBranchAtOnce<M>(isa: Isa<M>, s: State<M>)
    requires Decodes(isa) && s.Shape() && Bundled(s) && Packets(isa, s.queue) && |s.queue| == 2
    ensures !(s.queue[0].instr.cls == Branch && s.queue[1].instr.cls == Branch)
  {
    assert s.queue[0].instr == isa.fetch(s.queue[0].pc) && s.queue[1].instr == isa.fetch(s.queue[1].pc);
  }

  lemma DispatchRenames<M>(isa: Isa<M>, s: State<M>, x: Inputs)
    requires Decodes(isa) && s.Shape() && Bundled(s) && Packets(isa, s.queue)
    requires !Flushes(s, x) && !Recovers(s) && CanDispatchMany(isa, s, x.dispatch)
    ensures var p := TablePorts(s, x);
            p.Valid() && DispatchMany(isa, s, x.dispatch).rat == Renamed(s.rat, p.set0, p.set1, p.save, p.saveAfterSlot0)
  {
    hide RAT.SetMap, Lookup, Execute, RetireCount, Mispredicted;
    NoPort(s.rat.current);
    if x.dispatch >= 1 {
      NoPort(RAT.SetMap(s.rat.current, RAT.Rename(s.queue[0].instr.dst, s.w.TagOf(|s.w.ops|))));
    }
    if x.dispatch == 2 {
      OneBranchAtOnce(isa, s);
    }
  }

  lemma RetireClears<M>(isa: Isa<M>, s: State<M>, n: nat)
    requires s.Shape() && n <= 2 && n <= |s.w.ops| && forall i :: 0 <= i < n ==> Completed(s, i)
    ensures RetireMany(isa, s, n).rat ==
            ClearTable(s.rat, if n >= 1 then RAT.Rename(s.w.ops[0].instr.dst, s.w.head) else RAT.NO_RENAME,
                       if n == 2 then RAT.Rename(s.w.ops[1].instr.dst, TagAt(s.w.head, 1)) else RAT.NO_RENAME)
  {
    hide RAT.ClearMap, RAT.ClearAll, WriteReg;
    ClearNothing(s.rat);
    if n >= 1 {
      ClearNothing(RAT.ClearAll(s.rat, RAT.Rename(s.w.ops[0].instr.dst, s.w.head)));
    }
  }

  lemma ClearNothing(t: RAT.Table)
    requires t.Valid()
    ensures RAT.ClearAll(t, RAT.NO_RENAME) == t
  {
    hide RAT.ClearMap;
    forall k | 0 <= k < RAT.CKPTS
      ensures RAT.ClearEach(t.saved, RAT.NO_RENAME)[k] == t.saved[k]
    {
      NoPort(t.saved[k]);
    }
    NoPort(t.current);
    assert RAT.ClearEach(t.saved, RAT.NO_RENAME) == t.saved;
  }

  /** A tag that is being allocated is not one that is committing. */
  lemma PortsApart<M>(s: State<M>, x: Inputs, i: nat, j: nat)
    requires s.Shape() && i < 2 && j < 2 && |s.w.ops| + Dispatched(s, x) <= ROB_SIZE
    ensures Apart(SetPort(s, x, i), ClearPort(s, x, j))
  {
    hide RetireCount, Mispredicted;
    if i < Dispatched(s, x) && j < Committing(s, x) {
      CommittingIsLive(s, x);
      if TagAt(s.w.head, |s.w.ops| + i) == TagAt(s.w.head, j) {
        TagsDistinct(s.w.head, |s.w.ops| + i, j);
      }
    }
  }

  lemma CommittingIsLive<M>(s: State<M>, x: Inputs)
    requires s.Shape()
    ensures Committing(s, x) <= |s.w.ops|
  {
  }

  lemma BackHalfTable<M>(isa: Isa<M>, s: State<M>, x: Inputs, n: nat)
    requires s.Shape() && n <= 2 && n <= |s.w.ops| && forall i :: 0 <= i < n ==> Completed(s, i)
    ensures BackHalf(isa, s, x, n).rat ==
            ClearTable(s.rat, if n >= 1 then RAT.Rename(s.w.ops[0].instr.dst, s.w.head) else RAT.NO_RENAME,
                       if n == 2 then RAT.Rename(s.w.ops[1].instr.dst, TagAt(s.w.head, 1)) else RAT.NO_RENAME)
  {
    hide RetireMany, AdvanceAll, Enqueue, ClearTable;
    RetireClears(isa, Advance(isa, s, x), n);
  }

  /** What the front half leaves for the clears to see: the oldest entries and the head are untouched. */
  lemma FrontKeepsOldest<M>(isa: Isa<M>, s: State<M>, x: Inputs, n: nat)
    requires Inv(isa, s) && Allowed(isa, s, x) && !Flushes(s, x) && n == RetireCount(s, x.storeBufferFull)
    ensures var w' := FrontHalf(isa, s, x).w;
            n <= |s.w.ops| && w'.head == s.w.head && n <= |w'.ops| && forall k :: 0 <= k < n ==> w'.ops[k] == s.w.ops[k]
  {
    hide Outcomes, Operands, Renaming, Units, Stores, Histories, InOrder, Lookup, Execute, CanAdvance, Mispredicted;
  }

  /** One step of the machine is one edge of the table. */
  lemma TableFollowsPorts<M>(isa: Isa<M>, s: State<M>, x: Inputs)
    requires Decodes(isa) && Inv(isa, s) && Allowed(isa, s, x)
    ensures TablePorts(s, x).Valid() && Next(isa, s, x).rat == RAT.Edge(s.rat, TablePorts(s, x))
  {
    hide Outcomes, Operands, Renaming, Units, Stores, Histories, Chain, QueueChain, CanAdvance, RAT.Edge, BackHalf, Fetch, RetireCount,
         DispatchMany, Renamed, ClearTable, RAT.FlushTable, Mispredicted, RAT.Restore;
    var n := RetireCount(s, x.storeBufferFull);
    var p := TablePorts(s, x);
    if Flushes(s, x) {
      FlushIsEdge(s.rat, p);
    } else {
      FrontKeepsOldest(isa, s, x, n);
      BackHalfTable(isa, FrontHalf(isa, s, x), x, n);
      FetchTable(isa, BackHalf(isa, FrontHalf(isa, s, x), x, n), x.fetch);
      if Recovers(s) {
        RestoreThenClear(s.rat, p);
        RecoverTable(isa, s);
      } else {
        DispatchRenames(isa, s, x);
        DispatchRoom(isa, s, x);
        forall i, j | 0 <= i < 2 && 0 <= j < 2
          ensures Apart(SetPort(s, x, i), ClearPort(s, x, j))
        {
          PortsApart(s, x, i, j);
        }
        RenameThenClear(s.rat, p);
      }
    }
  }

  lemma FetchTable<M>(isa: Isa<M>, s: State<M>, gs: seq<Guess>)
    requires s.Shape()
    ensures Fetch(isa, s, gs).rat == s.rat
  {
  }

  lemma RecoverTable<M>(isa: Isa<M>, s: State<M>)
    requires s.Shape() && Recovers(s)
    ensures Recover(isa, s).rat == RAT.Restore(s.rat, s.w.ops[s.w.IndexOf(s.br.value)].ckpt)
  {
  }

  lemma DispatchRoom<M>(isa: Isa<M>, s: State<M>, x: Inputs)
    requires s.Shape() && CanDispatchMany(isa, s, x.dispatch)
    ensures |s.w.ops| + x.dispatch <= ROB_SIZE && x.dispatch <= |s.queue|
  {
  }
}
