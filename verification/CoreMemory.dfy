/** The back end together with the data side: how the two are wired, what an address is to each, and what holds
    of them in every cycle. */
module CoreMemory {
  import opened Prelude
  import opened OooPackage
  import opened Isa
  import opened Dataflow
  import opened Core
  import opened CoreTable
  import opened CoreCycle
  import opened Bytes
  import D = DataSide
  import DI = DataSideInvariant
  import DR = DataSideReports

  // ---- words and byte lanes ----

  function AddrOf(w: Word): Addr {
    Addr(w / 32, w / 4 % 8, w % 4)
  }

  /** The lowest two bits, the next three and the rest are the byte address's three parts, and no other parts are. */
  lemma AddressParts(w: Word, a: Addr)
    ensures AddrOf(w).Number() == w && (a.Number() == w <==> a == AddrOf(w))
  {
    assert w == 4 * (w / 4) + w % 4 && w / 4 == 8 * (w / 4 / 8) + w / 4 % 8 && w / 4 / 8 == w / 32;
    AddrParts(a, AddrOf(w));
  }

  function ToLanes(w: Word): Lanes {
    [ByteOf(w, 0), ByteOf(w, 1), ByteOf(w, 2), ByteOf(w, 3)]
  }

  function FromLanes(b: Lanes): Word {
    Number(b, WordSize, 0)
  }

  lemma LanesRoundTrip(w: Word, b: Lanes)
    ensures FromLanes(ToLanes(w)) == w && ToLanes(FromLanes(b)) == b
  {
    SplitWord(w);
    JoinedBytes(b[0], b[1], b[2], b[3]);
  }

  lemma SplitWord(w: Word)
    ensures w == w % 0x100 + 0x100 * (w / 0x100 % 0x100) + 0x1_0000 * (w / 0x1_0000 % 0x100) + 0x100_0000 * (w / 0x100_0000 % 0x100)
  {
    assert w / 0x1_0000 == 0x100 * (w / 0x100_0000) + w / 0x1_0000 % 0x100;
    assert w / 0x100 == 0x100 * (w / 0x1_0000) + w / 0x100 % 0x100;
  }

  lemma JoinedBytes(b0: Byte, b1: Byte, b2: Byte, b3: Byte)
    ensures var v := b0 as int + 0x100 * (b1 as int) + 0x1_0000 * (b2 as int) + 0x100_0000 * (b3 as int);
            v % 0x100 == b0 && v / 0x100 % 0x100 == b1 && v / 0x1_0000 % 0x100 == b2 && v / 0x100_0000 % 0x100 == b3
  {
    var v := b0 as int + 0x100 * (b1 as int) + 0x1_0000 * (b2 as int) + 0x100_0000 * (b3 as int);
    assert v / 0x100 == b1 as int + 0x100 * (b2 as int) + 0x1_0000 * (b3 as int);
    assert v / 0x1_0000 == b2 as int + 0x100 * (b3 as int);
  }

  /** How an instruction set's memory holds words, and how wide its memory instructions are. */
  datatype Layout<!M> = Layout(word: (M, Addr) -> Lanes, size: Instr -> Size, unsigned: Instr -> bool)

  /** Its loads, stores and alignment faults are those of a byte-addressed memory, on the cacheable lines. */
  ghost predicate LoadsBytes<M(!new)>(isa: Isa<M>, lay: Layout<M>, lines: nat) {
    forall m: M, i: Instr, a: Word :: AddrOf(a).line < lines && !Misaligned(lay.size(i), AddrOf(a).byte) ==>
      isa.load(m, i, a) == FromLanes(LoadValue(lay.word(m, AddrOf(a)), lay.size(i), lay.unsigned(i), AddrOf(a).byte))
  }

  ghost predicate StoresBytes<M(!new)>(isa: Isa<M>, lay: Layout<M>, lines: nat) {
    forall m: M, i: Instr, a: Word, v: Word, b: Addr :: b.line < lines && !Misaligned(lay.size(i), AddrOf(a).byte) ==>
      lay.word(isa.store(m, i, a, v), b) ==
      if AddrOf(a).SameWord(b) then Merge(lay.word(m, b), ToLanes(v), ByteMask(lay.size(i), AddrOf(a).byte)) else lay.word(m, b)
  }

  ghost predicate Aligns<M(!new)>(isa: Isa<M>, lay: Layout<M>) {
    forall i: Instr, a: Word :: isa.misaligned(i, a) == Misaligned(lay.size(i), AddrOf(a).byte)
  }

  // ---- the same in numbers ----

  /** A load yields the number of the bytes at its address, zero- or sign-extended. */
  ghost predicate LoadsNumbers<M(!new)>(isa: Isa<M>, lay: Layout<M>, lines: nat) {
    forall m: M, i: Instr, a: Word :: AddrOf(a).line < lines && a % Width(lay.size(i)) == 0 ==>
      Reads(isa.load(m, i, a), lay.word(m, AddrOf(a)), lay.size(i), lay.unsigned(i), AddrOf(a).byte)
  }

  /** A store puts the bytes of its data at its address and the ones after it, and changes no other byte. */
  ghost predicate StoresNumbers<M(!new)>(isa: Isa<M>, lay: Layout<M>, lines: nat) {
    forall m: M, i: Instr, a: Word, v: Word, b: Addr :: b.line < lines && a % Width(lay.size(i)) == 0 ==>
      StoredBytes(lay.word(isa.store(m, i, a, v), b), lay.word(m, b), b.(byte := 0).Number(), a, v, Width(lay.size(i)))
  }

  /** The word at byte address `at`, after a store of `width` bytes of v at address a. */
  ghost predicate StoredBytes(now: Lanes, was: Lanes, at: nat, a: Word, v: Word, width: nat)
    requires width <= 4
  {
    forall lane :: 0 <= lane < 4 ==>
      now[lane] == if a <= at + lane < a + width then ByteOf(v, at + lane - a) else was[lane]
  }

  ghost predicate FaultsUnaligned<M(!new)>(isa: Isa<M>, lay: Layout<M>) {
    forall i: Instr, a: Word :: isa.misaligned(i, a) == (a % Width(lay.size(i)) != 0)
  }

  lemma NumbersAreBytes<M(!new)>(isa: Isa<M>, lay: Layout<M>, lines: nat)
    requires LoadsNumbers(isa, lay, lines) && StoresNumbers(isa, lay, lines) && FaultsUnaligned(isa, lay)
    ensures LoadsBytes(isa, lay, lines) && StoresBytes(isa, lay, lines) && Aligns(isa, lay)
  {
    hide Reads, LoadValue, Merge, ByteMask, Misaligned, AddrOf, ToLanes, StoredBytes, Number;
    forall i: Instr, a: Word
      ensures Misaligned(lay.size(i), AddrOf(a).byte) <==> a % Width(lay.size(i)) != 0
    {
      AddressParts(a, AddrOf(a));
      MisalignedMeans(lay.size(i), AddrOf(a));
    }
    forall m: M, i: Instr, a: Word | AddrOf(a).line < lines && !Misaligned(lay.size(i), AddrOf(a).byte)
      ensures isa.load(m, i, a) == FromLanes(LoadValue(lay.word(m, AddrOf(a)), lay.size(i), lay.unsigned(i), AddrOf(a).byte))
    {
      LoadMeans(lay.word(m, AddrOf(a)), lay.size(i), lay.unsigned(i), AddrOf(a).byte, isa.load(m, i, a));
    }
    forall m: M, i: Instr, a: Word, v: Word, b: Addr | b.line < lines && !Misaligned(lay.size(i), AddrOf(a).byte)
      ensures lay.word(isa.store(m, i, a, v), b) ==
              if AddrOf(a).SameWord(b) then Merge(lay.word(m, b), ToLanes(v), ByteMask(lay.size(i), AddrOf(a).byte)) else lay.word(m, b)
    {
      StoredIsMerged(lay.word(isa.store(m, i, a, v), b), lay.word(m, b), a, v, lay.size(i), b);
    }
  }

  lemma StoredIsMerged(now: Lanes, was: Lanes, a: Word, v: Word, size: Size, b: Addr)
    requires !Misaligned(size, AddrOf(a).byte) && StoredBytes(now, was, b.(byte := 0).Number(), a, v, Width(size))
    ensures now == if AddrOf(a).SameWord(b) then Merge(was, ToLanes(v), ByteMask(size, AddrOf(a).byte)) else was
  {
    hide Merge, ByteMask, Misaligned, ByteOf, AddrOf;
    var at := AddrOf(a);
    AddressParts(a, at);
    MisalignedMeans(size, at);
    assert a == 32 * at.line + 4 * at.word + at.byte;
    forall lane | 0 <= lane < 4
      ensures now[lane] == (if at.SameWord(b) then Merge(was, ToLanes(v), ByteMask(size, at.byte)) else was)[lane]
    {
      MergeMeans(was, ToLanes(v), size, at.byte, lane);
      assert b.(byte := 0).Number() == 32 * b.line + 4 * b.word;
    }
  }

  // ---- wiring ----

  /** A store commits in this cycle; the dual-commit rule lets at most one. */
  predicate CommitsStore<M>(s: State<M>, n: nat)
    requires n <= |s.w.ops|
  {
    (n >= 1 && s.w.ops[0].instr.cls.Store?) || (n >= 2 && s.w.ops[1].instr.cls.Store?)
  }

  /** The operation the memory queue offers: the selected instruction's address and data. `ids` gives each
      instruction in flight its place in program order; it is history. */
  function HeadOf<M>(isa: Isa<M>, lay: Layout<M>, s: State<M>, ids: seq<nat>, x: Inputs): Option<D.HeadOp> {
    if x.issue.mem.Some? && x.issue.mem.value < |s.w.ops| && x.issue.mem.value < |s.w.phases| && x.issue.mem.value < |ids| &&
       s.w.phases[x.issue.mem.value].Waiting? then
      var m := x.issue.mem.value;
      var i, p := s.w.ops[m].instr, s.w.phases[m];
      var a := AddrOf(isa.address(i, p.op1.value));
      Some(if i.cls.Store? then D.HeadStore(D.Queued(ids[m], a, lay.size(i), ToLanes(p.op2.value)))
           else D.HeadLoad(ids[m], a, lay.size(i), lay.unsigned(i)))
    else None
  }

  /** The load/store unit's result gets a bus. */
  ghost predicate ReportGranted<M, P>(s: State<M>, d: D.State<P>, ids: seq<nat>, x: Inputs) {
    d.out.Some? && exists i: nat :: i < |ids| && ids[i] == d.out.value.stamp && OnBus(x, s.w.TagOf(i))
  }

  ghost function DataInputs<M, P>(isa: Isa<M>, lay: Layout<M>, s: State<M>, d: D.State<P>, ids: seq<nat>, x: Inputs, device: Lanes): D.Inputs {
    var n := RetireCount(s, x.storeBufferFull);
    if Flushes(s, x) then D.Inputs(true, None, false, false, None, device)
    else D.Inputs(false, if Recovers(s) && s.w.IndexOf(s.br.value) < |ids| then Some(ids[s.w.IndexOf(s.br.value)]) else None,
                  n <= |s.w.ops| && CommitsStore(s, n), ReportGranted(s, d, ids, x), HeadOf(isa, lay, s, ids, x), device)
  }

  /** The memory queue's head issues when the unit takes it; commit sees the store buffer; and of all memory
      instructions only the one whose result the unit offers is ever given a bus. */
  ghost predicate Wired<M, P>(isa: Isa<M>, lay: Layout<M>, s: State<M>, d: D.State<P>, ids: seq<nat>, x: Inputs, device: Lanes) {
    && x.storeBufferFull == (|d.sb| >= D.STOREBUF_DEPTH)
    && (!Flushes(s, x) && x.issue.mem.Some? ==> D.HeadTaken(d, DataInputs(isa, lay, s, d, ids, x, device)))
    && (forall t: Tag :: OnBus(x, t) && s.w.Live(t) && s.w.ops[s.w.IndexOf(t)].IsMem() ==>
          d.out.Some? && s.w.IndexOf(t) < |ids| && ids[s.w.IndexOf(t)] == d.out.value.stamp)
  }

  /** Dispatch hands out new places, a recovery or a flush takes the youngest back, commit the oldest. */
  function Fresh(next: nat, k: nat): seq<nat> {
    if k == 0 then [] else if k == 1 then [next] else [next, next + 1]
  }

  function FrontIds<M>(s: State<M>, x: Inputs, ids: seq<nat>, next: nat): seq<nat> {
    if Recovers(s) then (if s.w.IndexOf(s.br.value) < |ids| then ids[..s.w.IndexOf(s.br.value) + 1] else ids)
    else ids + Fresh(next, x.dispatch)
  }

  function NextIds<M>(s: State<M>, x: Inputs, ids: seq<nat>, next: nat): seq<nat> {
    var front := FrontIds(s, x, ids, next);
    var n := RetireCount(s, x.storeBufferFull);
    if Flushes(s, x) then [] else if n <= |front| then front[n..] else []
  }

  function NextFree<M>(s: State<M>, x: Inputs, next: nat): nat {
    if Flushes(s, x) || Recovers(s) then next else next + x.dispatch
  }

  // ---- what holds ----

  ghost predicate Increasing(ids: seq<nat>, next: nat) {
    && (forall i :: 0 <= i < |ids| ==> ids[i] < next)
    && forall i, j :: 0 <= i < j < |ids| ==> ids[i] < ids[j]
  }

  /** Memory instructions that have not left their queue are younger than everything that has. */
  ghost predicate WaitingAreNew(w: Window, ids: seq<nat>, nextStamp: nat) {
    forall i :: 0 <= i < |w.ops| && i < |w.phases| && i < |ids| && w.ops[i].IsMem() && w.phases[i].Waiting? ==> ids[i] >= nextStamp
  }

  predicate SameStore<M>(lay: Layout<M>, w: Window, ids: seq<nat>, c: QueuedStore, q: D.Queued) {
    && w.IndexOf(c.tag) < |ids|
    && q == D.Queued(ids[w.IndexOf(c.tag)], AddrOf(c.addr), lay.size(c.instr), ToLanes(c.data))
  }

  /** The two store queues are the same. */
  ghost predicate QueueMatches<M>(lay: Layout<M>, w: Window, ids: seq<nat>, cs: seq<QueuedStore>, qs: seq<D.Queued>) {
    |cs| == |qs| && forall k :: 0 <= k < |cs| ==> SameStore(lay, w, ids, cs[k], qs[k])
  }

  /** Architectural memory is the initial one after the committed stores. */
  ghost predicate MemoryMatches<M>(lay: Layout<M>, ram0: seq<Words>, mem: M, committed: seq<D.Queued>) {
    forall a: Addr :: a.line < |ram0| ==> lay.word(mem, a) == DI.MemoryWord(ram0, committed, a)
  }

  /** Instruction i is the memory instruction with this place, executing. */
  ghost predicate IsOperation(w: Window, ids: seq<nat>, i: nat, stamp: nat) {
    i < |w.ops| && i < |w.phases| && i < |ids| && ids[i] == stamp && w.ops[i].IsMem() && w.phases[i].Executing?
  }

  /** Instruction i is this load; its program-order value is what the memory after the load's older stores holds. */
  ghost predicate IsLoad<M>(lay: Layout<M>, ram0: seq<Words>, w: Window, ids: seq<nat>, i: nat, ld: D.Load) {
    && IsOperation(w, ids, i, ld.stamp) && w.ops[i].instr.cls == Load
    && var out := w.phases[i].out;
       && !out.exception && ld.addr == AddrOf(out.addr) && ld.size == lay.size(w.ops[i].instr) && ld.unsigned == lay.unsigned(w.ops[i].instr)
       && !Misaligned(ld.size, ld.addr.byte)
       && (ld.addr.line < |ram0| ==>
             out.value == FromLanes(LoadValue(DI.MemoryWord(ram0, ld.older, ld.addr), ld.size, ld.unsigned, ld.addr.byte)))
  }

  /** The load under way and the result on offer are those of executing instructions. */
  ghost predicate LoadMatches<M, P>(lay: Layout<M>, ram0: seq<Words>, w: Window, ids: seq<nat>, d: D.State<P>) {
    d.ld.Some? && !d.ld.value.squashed ==> exists i: nat :: IsLoad(lay, ram0, w, ids, i, d.ld.value)
  }

  /** What the unit reports is what the instruction comes to: a fault, a store, or a load. */
  ghost predicate SameKind(op: Op, out: Outcome, r: D.Result) {
    match r
    case Faulted(_) => out.exception
    case StoreDone(_) => !out.exception && op.instr.cls.Store?
    case LoadDone(_, _, _) => !out.exception && op.instr.cls.Load?
  }

  ghost predicate IsResult<M>(lay: Layout<M>, ram0: seq<Words>, w: Window, ids: seq<nat>, i: nat, r: D.Result) {
    && IsOperation(w, ids, i, r.stamp) && SameKind(w.ops[i], w.phases[i].out, r)
    && (r.LoadDone? ==> r.stamp == r.load.stamp && IsLoad(lay, ram0, w, ids, i, r.load))
  }

  ghost predicate OutMatches<M, P>(lay: Layout<M>, ram0: seq<Words>, w: Window, ids: seq<nat>, d: D.State<P>) {
    d.out.Some? ==> exists i: nat :: IsResult(lay, ram0, w, ids, i, d.out.value)
  }

  /** Every executing memory instruction is under way in the unit. */
  ghost predicate AllUnderWay<P>(w: Window, ids: seq<nat>, d: D.State<P>) {
    forall i :: 0 <= i < |w.ops| && i < |w.phases| && i < |ids| && w.ops[i].IsMem() && w.phases[i].Executing? ==> ids[i] in DR.Pending(d)
  }

  ghost predicate TwoOperations<P>(d: D.State<P>) {
    d.out.Some? && d.ld.Some? && !d.ld.value.squashed ==> d.out.value.stamp != d.ld.value.stamp
  }

  ghost predicate PendingIsOld<P>(d: D.State<P>) {
    forall t :: t in DR.Pending(d) ==> t < d.nextStamp
  }

  ghost predicate Joined<M, P>(lay: Layout<M>, ram0: seq<Words>, s: State<M>, d: D.State<P>, ids: seq<nat>, next: nat) {
    && |ids| == |s.w.ops| && Increasing(ids, next) && d.nextStamp <= next && WaitingAreNew(s.w, ids, d.nextStamp)
    && QueueMatches(lay, s.w, ids, s.sq, d.sq) && MemoryMatches(lay, ram0, s.arch.mem, d.committed) && |d.ram| == |ram0|
    && LoadMatches(lay, ram0, s.w, ids, d) && OutMatches(lay, ram0, s.w, ids, d) && AllUnderWay(s.w, ids, d) && TwoOperations(d)
    && PendingIsOld(d)
  }
}
