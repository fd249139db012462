/** Every program starts: the joint theorems' assumptions are met. */
module CoreMemoryStart {
  import opened Prelude
  import opened Isa
  import opened Dataflow
  import opened Core
  import opened CoreInvariant
  import opened Bytes
  import opened CoreMemory
  import opened CoreMemoryTheorems
  import CoreMemoryLiveness
  import CoreTheorems
  import D = DataSide
  import DI = DataSideInvariant
  import DT = DataSideTheorems
  import RAT = RenameTable

  /** A memory of words at word addresses; a word that is not in the map is zero. */
  type Memory = map<Addr, Lanes>

  function WordAt(m: Memory, a: Addr): Lanes {
    if a.(byte := 0) in m then m[a.(byte := 0)] else ZERO
  }

  function LoadOf(m: Memory, size: Size, unsigned: bool, a: Word): Word {
    if Misaligned(size, AddrOf(a).byte) then 0 else FromLanes(LoadValue(WordAt(m, AddrOf(a)), size, unsigned, AddrOf(a).byte))
  }

  function StoreOf(m: Memory, size: Size, a: Word, v: Word): Memory {
    var at := AddrOf(a);
    if Misaligned(size, at.byte) then m else m[at.(byte := 0) := Merge(WordAt(m, at), ToLanes(v), ByteMask(size, at.byte))]
  }

  /** Any program and any instructions that compute and branch, on that memory. */
  function OnBytes(base: Isa<Memory>, lay: Layout<Memory>): Isa<Memory> {
    base.(misaligned := (i: Instr, a: Word) => Misaligned(lay.size(i), AddrOf(a).byte),
          load := (m: Memory, i: Instr, a: Word) => LoadOf(m, lay.size(i), lay.unsigned(i), a),
          store := (m: Memory, i: Instr, a: Word, v: Word) => StoreOf(m, lay.size(i), a, v))
  }

  function LayoutOf(size: Instr -> Size, unsigned: Instr -> bool): Layout<Memory> {
    Layout((m: Memory, a: Addr) => WordAt(m, a), size, unsigned)
  }

  lemma AlwaysConforms(base: Isa<Memory>, size: Instr -> Size, unsigned: Instr -> bool, lines: nat)
    ensures Conforms(OnBytes(base, LayoutOf(size, unsigned)), LayoutOf(size, unsigned), lines)
  {
    hide Reads, LoadValue, Merge, ByteMask, Misaligned, AddrOf, ToLanes, FromLanes, StoredBytes, WordAt;
    var lay := LayoutOf(size, unsigned);
    var isa := OnBytes(base, lay);
    forall i: Instr, a: Word
      ensures isa.misaligned(i, a) == (a % Width(lay.size(i)) != 0)
    {
      AddressParts(a, AddrOf(a));
      MisalignedMeans(lay.size(i), AddrOf(a));
    }
    forall m: Memory, i: Instr, a: Word | AddrOf(a).line < lines && a % Width(lay.size(i)) == 0
      ensures Reads(isa.load(m, i, a), lay.word(m, AddrOf(a)), lay.size(i), lay.unsigned(i), AddrOf(a).byte)
    {
      assert !isa.misaligned(i, a);
      LoadReads(m, lay.size(i), lay.unsigned(i), a);
    }
    forall m: Memory, i: Instr, a: Word, v: Word, b: Addr | b.line < lines && a % Width(lay.size(i)) == 0
      ensures StoredBytes(lay.word(isa.store(m, i, a, v), b), lay.word(m, b), b.(byte := 0).Number(), a, v, Width(lay.size(i)))
    {
      assert !isa.misaligned(i, a);
      StoreWrites(m, lay.size(i), a, v, b);
    }
  }

  lemma LoadReads(m: Memory, size: Size, unsigned: bool, a: Word)
    requires !Misaligned(size, AddrOf(a).byte)
    ensures Reads(LoadOf(m, size, unsigned, a), WordAt(m, AddrOf(a)), size, unsigned, AddrOf(a).byte)
  {
    hide Reads, LoadValue, AddrOf, WordAt, Misaligned;
    LoadMeans(WordAt(m, AddrOf(a)), size, unsigned, AddrOf(a).byte, LoadOf(m, size, unsigned, a));
  }

  lemma StoreWrites(m: Memory, size: Size, a: Word, v: Word, b: Addr)
    requires !Misaligned(size, AddrOf(a).byte)
    ensures StoredBytes(WordAt(StoreOf(m, size, a, v), b), WordAt(m, b), b.(byte := 0).Number(), a, v, Width(size))
  {
    hide Merge, ByteMask, Misaligned, ByteOf, AddrOf, WordAt, StoreOf;
    AddressParts(a, AddrOf(a));
    MisalignedMeans(size, AddrOf(a));
    StoreChanges(m, size, a, v, b);
    forall lane | 0 <= lane < 4
      ensures WordAt(StoreOf(m, size, a, v), b)[lane] ==
              StoredByte(WordAt(m, b)[lane], a, v, Width(size), b.(byte := 0).Number() + lane)
    {
      MergeMeans(WordAt(m, b), ToLanes(v), size, AddrOf(a).byte, lane);
      SameWordBytes(AddrOf(a), b, Width(size), lane);
    }
  }

  /** The byte at address `at` after a store. */
  function StoredByte(was: Byte, a: Word, v: Word, width: nat, at: nat): Byte
    requires width <= 4
  {
    if a <= at < a + width then ByteOf(v, at - a) else was
  }

  lemma StoreChanges(m: Memory, size: Size, a: Word, v: Word, b: Addr)
    requires !Misaligned(size, AddrOf(a).byte)
    ensures WordAt(StoreOf(m, size, a, v), b) ==
            if AddrOf(a).SameWord(b) then Merge(WordAt(m, b), ToLanes(v), ByteMask(size, AddrOf(a).byte)) else WordAt(m, b)
  {
    hide Merge, ByteMask, Misaligned, AddrOf, ToLanes;
  }

  /** An access that stays in its word reaches a byte only of that word. */
  lemma SameWordBytes(a: Addr, b: Addr, width: nat, lane: nat)
    requires a.byte + width <= 4 && lane < 4
    ensures a.Number() <= b.(byte := 0).Number() + lane < a.Number() + width <==> a.SameWord(b) && a.byte <= lane < a.byte + width
    ensures a.SameWord(b) ==> b.(byte := 0).Number() + lane - a.Number() == lane - a.byte
  {
    assert a.Number() == 4 * (8 * a.line + a.word) + a.byte && b.(byte := 0).Number() == 4 * (8 * b.line + b.word);
    if a.Number() <= b.(byte := 0).Number() + lane < a.Number() + width {
      AddrParts(a.(byte := 0), b.(byte := 0));
    }
  }

  /** The memory that holds these lines. */
  function Holding(ram: seq<Words>): Memory {
    map a: Addr | a in Places(|ram|) :: ram[a.line][a.word]
  }

  function Places(n: nat): (s: set<Addr>)
    ensures forall a: Addr :: a in s <==> a.line < n && a.byte == 0
  {
    set l, w: WordIndex | 0 <= l < n && 0 <= w < 8 :: Addr(l, w, 0)
  }

  // ---- runs ----

  /** The back end at reset. */
  function AtReset<M>(arch: Arch<M>): State<M> {
    State(arch, Window(0, [], []), RAT.Table(RAT.Nothing(), Repeat(RAT.Nothing(), RAT.CKPTS)), Repeat(false, RAT.CKPTS), Repeat(0, RAT.CKPTS),
          None, None, None, [], [], arch.pc, NO_HISTORY, NO_HISTORY, [])
  }

  lemma ResetIsReset<M>(isa: Isa<M>, arch: Arch<M>)
    requires arch.Valid()
    ensures CoreTheorems.IsRun(isa, [AtReset(arch)], [])
  {
  }

  lemma HoldsMemory(ram: seq<Words>, size: Instr -> Size, unsigned: Instr -> bool)
    ensures MemoryMatches(LayoutOf(size, unsigned), ram, Holding(ram), [])
  {
    forall a: Addr | a.line < |ram|
      ensures LayoutOf(size, unsigned).word(Holding(ram), a) == DI.MemoryWord(ram, [], a)
    {
      assert a.(byte := 0) in Places(|ram|);
      EmptyAfter(ram[a.line][a.word], a);
    }
  }

  /** Whatever the program, the registers, the memory, its size and the replacement policy, there is a joint run from there. */
  lemma EveryProgramStarts<P(!new)>(base: Isa<Memory>, size: Instr -> Size, unsigned: Instr -> bool, p: D.Policy<P>, d: D.State<P>, pc: Word, regs: seq<Word>)
      returns (r: Run<Memory, P>)
    requires Decodes(base) && DT.Reset(p, d) && |regs| == 64 && regs[0] == 0
    ensures IsRun(OnBytes(base, LayoutOf(size, unsigned)), LayoutOf(size, unsigned), p, r) && |r.states| == |r.inputs| + 1
    ensures |r.datas| > 0 && r.datas[0] == d && r.states[0].arch == Arch(pc, regs, Holding(d.ram))
  {
    hide Conforms, MemoryMatches, Holding, AtReset, CoreTheorems.IsRun;
    var (lay, arch) := (LayoutOf(size, unsigned), Arch(pc, regs, Holding(d.ram)));
    r := Run([AtReset(arch)], [], [d], [], [[]], [d.nextStamp], []);
    AlwaysConforms(base, size, unsigned, |d.ram|);
    HoldsMemory(d.ram, size, unsigned);
    ResetIsReset(OnBytes(base, lay), arch);
    assert AtReset(arch).arch == arch by { AtResetArch(arch); }
  }

  lemma AtResetArch<M>(arch: Arch<M>)
    ensures AtReset(arch).arch == arch
  {
  }

  /** And it goes on for as long as one likes: some continuation commits n instructions, and by CommitsInProgramOrder they
      are the program's. */
  lemma {:induction false} EveryProgramRuns<P(!new)>(base: Isa<Memory>, size: Instr -> Size, unsigned: Instr -> bool, p: D.Policy<P>, d: D.State<P>, pc: Word,
                                                     regs: seq<Word>, n: nat)
      returns (r: Run<Memory, P>)
    requires Decodes(base) && DT.Reset(p, d) && |regs| == 64 && regs[0] == 0
    ensures IsRun(OnBytes(base, LayoutOf(size, unsigned)), LayoutOf(size, unsigned), p, r) && |r.states| == |r.inputs| + 1
    ensures |r.datas| > 0 && r.datas[0] == d && r.states[0].arch == Arch(pc, regs, Holding(d.ram)) && |r.states[|r.inputs|].log| >= n
  {
    hide IsRun, DT.Reset, Decodes, Holding, OnBytes, LayoutOf;
    if n == 0 {
      r := EveryProgramStarts(base, size, unsigned, p, d, pc, regs);
    } else {
      var before := EveryProgramRuns(base, size, unsigned, p, d, pc, regs, n - 1);
      r := CoreMemoryLiveness.CanAlwaysCommit(OnBytes(base, LayoutOf(size, unsigned)), LayoutOf(size, unsigned), p, before);
    }
  }
}
