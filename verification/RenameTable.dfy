/** Register alias table with per-branch checkpoints. */
module RenameTable {
  import opened Prelude
  import opened OooPackage

  const CKPTS := 4

  type Ckpt = k: nat | k < CKPTS

  /** One register map: a busy register's newest value will come from the entry `tag`. */
  datatype RegMap = RegMap(busy: seq<bool>, tags: seq<Tag>)
  {
    ghost predicate Valid() {
      |busy| == 64 && |tags| == 64
    }
  }

  /** The current map and the checkpoint copies. */
  datatype Table = Table(current: RegMap, saved: seq<RegMap>)
  {
    ghost predicate Valid() {
      current.Valid() && |saved| == CKPTS && forall k :: 0 <= k < CKPTS ==> saved[k].Valid()
    }
  }

  /** A renamed instruction: its destination (0 if none) and its tag. */
  datatype Rename = Rename(dst: Reg, tag: Tag)

  // ---- the sequential meaning: renaming a list of instructions in program order ----

  /** Index of the youngest instruction that writes r, or -1. */
  function LastWriter(rs: seq<Rename>, r: Reg): (j: int)
    ensures -1 <= j < |rs|
    ensures j >= 0 ==> rs[j].dst == r
    ensures forall k :: j < k < |rs| ==> rs[k].dst != r
  {
    if |rs| == 0 then -1
    else if rs[|rs| - 1].dst == r then |rs| - 1
    else LastWriter(rs[..|rs| - 1], r)
  }

  lemma LastWriterUnique(rs: seq<Rename>, r: Reg, j: int)
    requires -1 <= j < |rs|
    requires j >= 0 ==> rs[j].dst == r
    requires forall k :: j < k < |rs| ==> rs[k].dst != r
    ensures LastWriter(rs, r) == j
  {
  }

  /** Taking away the oldest instruction shifts the youngest writer, or leaves none. */
  lemma LastWriterDrop(rs: seq<Rename>, r: Reg)
    requires |rs| > 0
    ensures LastWriter(rs[1..], r) == if LastWriter(rs, r) >= 1 then LastWriter(rs, r) - 1 else -1
  {
    var w := LastWriter(rs, r);
    var j := if w >= 1 then w - 1 else -1;
    forall k | j < k < |rs| - 1
      ensures rs[1..][k].dst != r
    {
      assert rs[1..][k] == rs[k + 1];
    }
    LastWriterUnique(rs[1..], r, j);
  }

  lemma LastWriterAppend(rs: seq<Rename>, e: Rename, r: Reg)
    ensures LastWriter(rs + [e], r) == if e.dst == r then |rs| else LastWriter(rs, r)
  {
    assert (rs + [e])[..|rs|] == rs;
  }

  function Nothing(): (m: RegMap)
    ensures m.Valid() && (forall r: Reg :: !m.busy[r]) && (forall r: Reg :: m.tags[r] == 0)
  {
    RegMap(Repeat(false, 64), Repeat(0, 64))
  }

  /** Marks a destination busy; register 0 is never renamed. */
  function SetMap(m: RegMap, e: Rename): (m': RegMap)
    requires m.Valid()
    ensures m'.Valid()
  {
    if e.dst == 0 then m else RegMap(m.busy[e.dst := true], m.tags[e.dst := e.tag])
  }

  /** Renaming a whole list, oldest first, from an empty map. */
  function RenameAll(rs: seq<Rename>): (m: RegMap)
    ensures m.Valid()
  {
    if |rs| == 0 then Nothing() else SetMap(RenameAll(rs[..|rs| - 1]), rs[|rs| - 1])
  }

  /** m holds exactly the busy registers and pending tags of the in-flight instructions rs. */
  ghost predicate Agrees(m: RegMap, rs: seq<Rename>) {
    && m.Valid() && !m.busy[0]
    && forall r: Reg :: 0 < r < 64 ==>
         (m.busy[r] <==> LastWriter(rs, r) >= 0) && (m.busy[r] ==> m.tags[r] == rs[LastWriter(rs, r)].tag)
  }

  /** Agreement means: the same busy registers, and the same tags on them, as renaming in order. */
  lemma {:induction false} AgreesIsReplay(m: RegMap, rs: seq<Rename>)
    requires m.Valid()
    ensures Agrees(m, rs) <==>
            forall r: Reg :: m.busy[r] == RenameAll(rs).busy[r] && (m.busy[r] ==> m.tags[r] == RenameAll(rs).tags[r])
  {
    ReplayAgrees(rs);
    var w := RenameAll(rs);
    assert Agrees(m, rs) ==> forall r: Reg :: m.busy[r] == w.busy[r] && (m.busy[r] ==> m.tags[r] == w.tags[r]);
    if forall r: Reg :: m.busy[r] == w.busy[r] && (m.busy[r] ==> m.tags[r] == w.tags[r]) {
      assert !m.busy[0];
    }
  }

  lemma {:induction false} ReplayAgrees(rs: seq<Rename>)
    ensures Agrees(RenameAll(rs), rs)
  {
    if |rs| > 0 {
      var k := |rs| - 1;
      ReplayAgrees(rs[..k]);
      SetKeepsAgreement(RenameAll(rs[..k]), rs[..k], rs[k]);
      assert rs[..k] + [rs[k]] == rs;
    }
  }

  lemma SetKeepsAgreement(m: RegMap, rs: seq<Rename>, e: Rename)
    requires Agrees(m, rs)
    ensures Agrees(SetMap(m, e), rs + [e])
  {
    forall r: Reg | 0 < r < 64
      ensures LastWriter(rs + [e], r) == if e.dst == r then |rs| else LastWriter(rs, r)
    {
      LastWriterAppend(rs, e, r);
    }
  }

  // ---- what the hardware does at commit, at a branch, and at a recovery ----

  /** A commit clears a register only if it still waits for the committing instruction. */
  function ClearMap(m: RegMap, e: Rename): (m': RegMap)
    requires m.Valid()
    ensures m'.Valid()
  {
    if e.dst != 0 && m.tags[e.dst] == e.tag then m.(busy := m.busy[e.dst := false]) else m
  }

  ghost predicate DistinctTags(rs: seq<Rename>) {
    forall i, j :: 0 <= i < j < |rs| ==> rs[i].tag != rs[j].tag
  }

  /** Committing the oldest instruction leaves exactly the map of the remaining ones, whether the
      register was renamed again since or not. */
  lemma ClearKeepsAgreement(m: RegMap, rs: seq<Rename>)
    requires |rs| > 0 && DistinctTags(rs) && Agrees(m, rs)
    ensures Agrees(ClearMap(m, rs[0]), rs[1..])
  {
    var m' := ClearMap(m, rs[0]);
    forall r: Reg | 0 < r < 64
      ensures (m'.busy[r] <==> LastWriter(rs[1..], r) >= 0) && (m'.busy[r] ==> m'.tags[r] == rs[1..][LastWriter(rs[1..], r)].tag)
    {
      LastWriterDrop(rs, r);
    }
  }

  /** The same commit clears the register inside every checkpoint copy. */
  function ClearEach(ms: seq<RegMap>, e: Rename): (r: seq<RegMap>)
    requires forall m :: m in ms ==> m.Valid()
    ensures |r| == |ms| && forall k :: 0 <= k < |ms| ==> r[k].Valid() && r[k] == ClearMap(ms[k], e)
  {
    if ms == [] then [] else [ClearMap(ms[0], e)] + ClearEach(ms[1..], e)
  }

  function ClearAll(t: Table, e: Rename): (t': Table)
    requires t.Valid()
    ensures t'.Valid()
  {
    Table(ClearMap(t.current, e), ClearEach(t.saved, e))
  }

  function SetCurrent(t: Table, e: Rename): (t': Table)
    requires t.Valid()
    ensures t'.Valid()
  {
    t.(current := SetMap(t.current, e))
  }

  function Save(t: Table, k: nat): (t': Table)
    requires t.Valid() && k < CKPTS
    ensures t'.Valid()
  {
    t.(saved := t.saved[k := t.current])
  }

  function Restore(t: Table, k: nat): (t': Table)
    requires t.Valid() && k < CKPTS
    ensures t'.Valid()
  {
    t.(current := t.saved[k])
  }

  function NotBusy(m: RegMap): (m': RegMap)
    requires m.Valid()
    ensures m'.Valid()
  {
    RegMap(Nothing().busy, m.tags)
  }

  function ForgetEach(ms: seq<RegMap>): (r: seq<RegMap>)
    requires forall m :: m in ms ==> m.Valid()
    ensures |r| == |ms| && forall k :: 0 <= k < |ms| ==> r[k] == NotBusy(ms[k]) && r[k].Valid()
  {
    if ms == [] then [] else [NotBusy(ms[0])] + ForgetEach(ms[1..])
  }

  function FlushTable(t: Table): (t': Table)
    requires t.Valid()
    ensures t'.Valid() && Agrees(t'.current, [])
  {
    Table(NotBusy(t.current), ForgetEach(t.saved))
  }

  // ---- one clock edge ----

  const NO_RENAME := Rename(0, 0)

  /** The inputs of one edge. A disabled set or clear port carries destination 0. */
  datatype Inputs = Inputs(flush: bool, set0: Rename, set1: Rename, clear0: Rename, clear1: Rename,
                           save: Option<nat>, saveAfterSlot0: bool, restore: Option<nat>)
  {
    ghost predicate Valid() {
      (save.Some? ==> save.value < CKPTS) && (restore.Some? ==> restore.value < CKPTS)
    }
  }

  /** The map after the commits and after slot 0's rename. */
  function AfterSlot0(t: Table, x: Inputs): (m: RegMap)
    requires t.Valid() && x.Valid()
    ensures m.Valid()
  {
    var base := if x.restore.Some? then t.saved[x.restore.value] else t.current;
    var cleared := ClearMap(ClearMap(base, x.clear0), x.clear1);
    if x.restore.Some? then cleared else SetMap(cleared, x.set0)
  }

  function AfterSlot1(t: Table, x: Inputs): (m: RegMap)
    requires t.Valid() && x.Valid()
    ensures m.Valid()
  {
    if x.restore.Some? then AfterSlot0(t, x) else SetMap(AfterSlot0(t, x), x.set1)
  }

  /** The checkpoint copies after one edge: one may be saved, the others only see the commits. */
  function NextSaved(t: Table, x: Inputs): (ms: seq<RegMap>)
    requires t.Valid() && x.Valid()
    ensures |ms| == CKPTS && forall k :: 0 <= k < CKPTS ==> ms[k].Valid()
  {
    var cleared := ClearEach(ClearEach(t.saved, x.clear0), x.clear1);
    if x.flush then ForgetEach(t.saved)
    else if x.save.Some? then cleared[x.save.value := if x.saveAfterSlot0 then AfterSlot0(t, x) else AfterSlot1(t, x)]
    else cleared
  }

  function Edge(t: Table, x: Inputs): (t': Table)
    requires t.Valid() && x.Valid()
    ensures t'.Valid()
  {
    Table(if x.flush then NotBusy(AfterSlot1(t, x)) else AfterSlot1(t, x), NextSaved(t, x))
  }

  /** A commit of e clears a copy of register r that holds this tag. */
  predicate Hits(e: Rename, r: Reg, tag: Tag) {
    r != 0 && e.dst == r && tag == e.tag
  }

  lemma AfterSlotsAt(t: Table, x: Inputs, r: Reg)
    requires t.Valid() && x.Valid()
    ensures var base := if x.restore.Some? then t.saved[x.restore.value] else t.current;
            var kept := base.busy[r] && !Hits(x.clear0, r, base.tags[r]) && !Hits(x.clear1, r, base.tags[r]);
            var set0 := x.restore.None? && r != 0 && x.set0.dst == r;
            var set1 := x.restore.None? && r != 0 && x.set1.dst == r;
            && AfterSlot0(t, x).busy[r] == (set0 || kept)
            && AfterSlot0(t, x).tags[r] == (if set0 then x.set0.tag else base.tags[r])
            && AfterSlot1(t, x).busy[r] == (set1 || AfterSlot0(t, x).busy[r])
            && AfterSlot1(t, x).tags[r] == (if set1 then x.set1.tag else AfterSlot0(t, x).tags[r])
  {
  }

  lemma ClearMapAt(m: RegMap, e: Rename, r: Reg)
    requires m.Valid()
    ensures ClearMap(m, e).busy[r] == (m.busy[r] && !Hits(e, r, m.tags[r])) && ClearMap(m, e).tags[r] == m.tags[r]
  {
  }

  lemma NextSavedAt(t: Table, x: Inputs, k: nat, r: Reg)
    requires t.Valid() && x.Valid() && k < CKPTS
    ensures var m := t.saved[k];
            var saves := !x.flush && x.save == Some(k);
            var from := if x.saveAfterSlot0 then AfterSlot0(t, x) else AfterSlot1(t, x);
            && NextSaved(t, x)[k].tags[r] == (if saves then from.tags[r] else m.tags[r])
            && NextSaved(t, x)[k].busy[r] ==
               (if saves then from.busy[r]
                else m.busy[r] && !x.flush && !Hits(x.clear0, r, m.tags[r]) && !Hits(x.clear1, r, m.tags[r]))
  {
    hide AfterSlot0, AfterSlot1, ClearMap, ClearEach, ForgetEach, Hits;
    ClearMapAt(t.saved[k], x.clear0, r);
    ClearMapAt(ClearMap(t.saved[k], x.clear0), x.clear1, r);
  }

  /** One busy bit with its tag, and the bits one register has: its own and its copy in every checkpoint. */
  datatype Bit = Bit(busy: bool, tag: Tag)
  datatype Cell = Cell(now: Bit, saved: seq<Bit>)

  function BitOf(m: RegMap, r: Reg): Bit
    requires m.Valid()
  {
    Bit(m.busy[r], m.tags[r])
  }

  ghost predicate Holds(c: Cell, t: Table, r: Reg)
    requires t.Valid()
  {
    c.now == BitOf(t.current, r) && |c.saved| == CKPTS && forall k :: 0 <= k < CKPTS ==> c.saved[k] == BitOf(t.saved[k], r)
  }

  /** The alias table of the design, clocked register by register. */
  class RenameTable {
    const cells: array<Cell>
    ghost var contents: Table

    ghost predicate Valid()
      reads this, cells
    {
      cells.Length == 64 && contents.Valid() && forall r :: 0 <= r < 64 ==> Holds(cells[r], contents, r)
    }

    constructor ()
      ensures Valid() && fresh(cells) && Agrees(contents.current, [])
    {
      hide Nothing, Repeat;
      var copies := Repeat(Bit(false, 0), CKPTS);
      cells := new Cell[64](_ => Cell(Bit(false, 0), copies));
      contents := Table(Nothing(), Repeat(Nothing(), CKPTS));
    }

    /** The four lookup ports read the registered table. */
    method Lookup(r: Reg) returns (busy: bool, tag: Tag)
      requires Valid()
      ensures busy == contents.current.busy[r] && tag == contents.current.tags[r]
    {
      busy, tag := cells[r].now.busy, cells[r].now.tag;
    }

    method Clock(x: Inputs)
      requires Valid() && x.Valid()
      modifies this`contents, cells
      ensures Valid() && contents == Edge(old(contents), x)
    {
      hide Edge;
      ghost var was, next := contents, Edge(contents, x);
      for r := 0 to 64
        invariant contents == was
        invariant forall q :: 0 <= q < r ==> Holds(cells[q], next, q)
        invariant forall q :: r <= q < 64 ==> Holds(cells[q], was, q)
      {
        var c := ClockRegister(x, r, cells[r], was);
        cells[r] := c;
      }
      contents := next;
    }
  }

  /** One register's process, then those of its checkpoint copies. */
  method ClockRegister(x: Inputs, r: Reg, c: Cell, ghost t: Table) returns (c': Cell)
    requires x.Valid() && t.Valid() && Holds(c, t, r)
    ensures Holds(c', Edge(t, x), r)
  {
    hide AfterSlot0, AfterSlot1, NextSaved, Hits;
    AfterSlotsAt(t, x, r);
    var bit := if x.restore.Some? then c.saved[x.restore.value] else c.now;
    if Hits(x.clear0, r, bit.tag) || Hits(x.clear1, r, bit.tag) {
      bit := bit.(busy := false);
    }
    if x.restore.None? && r != 0 && x.set0.dst == r {
      bit := Bit(true, x.set0.tag);
    }
    var save := bit;
    if x.restore.None? && r != 0 && x.set1.dst == r {
      bit := Bit(true, x.set1.tag);
    }
    if !x.saveAfterSlot0 {
      save := bit;
    }
    var saved := c.saved;
    for k := 0 to CKPTS
      invariant |saved| == CKPTS
      invariant forall j :: 0 <= j < k ==> saved[j] == BitOf(NextSaved(t, x)[j], r)
      invariant forall j :: k <= j < CKPTS ==> saved[j] == c.saved[j]
    {
      NextSavedAt(t, x, k, r);
      var copy := saved[k];
      if x.flush {
        saved := saved[k := copy.(busy := false)];
      } else if x.save == Some(k) {
        saved := saved[k := save];
      } else if Hits(x.clear0, r, copy.tag) || Hits(x.clear1, r, copy.tag) {
        saved := saved[k := copy.(busy := false)];
      }
    }
    c' := Cell(bit.(busy := bit.busy && !x.flush), saved);
  }
}
