/** Bytes, words, byte lanes and access sizes of the data side. */
module Bytes {

  type Byte = b: nat | b < 256

  /** A 32-bit word as its four byte lanes, lowest first. */
  type Lanes = w: seq<Byte> | |w| == 4 witness [0, 0, 0, 0]

  type Mask = m: seq<bool> | |m| == 4 witness [false, false, false, false]

  const ZERO: Lanes := [0, 0, 0, 0]

  datatype Size = ByteSize | HalfSize | WordSize

  type Offset = o: nat | o < 4

  /** A 32-byte cache line, or the part of memory it holds, and an index into one. */
  type Words = l: seq<Lanes> | |l| == 8 witness [ZERO, ZERO, ZERO, ZERO, ZERO, ZERO, ZERO, ZERO]

  type WordIndex = w: nat | w < 8

  /** A byte address: 32-byte line, word in the line, byte in the word. */
  datatype Addr = Addr(line: nat, word: WordIndex, byte: Offset)
  {
    predicate SameWord(a: Addr) {
      line == a.line && word == a.word
    }

    function Number(): nat {
      32 * line + 4 * word + byte
    }
  }

  /** Every byte address has exactly these three parts. */
  lemma AddrParts(a: Addr, b: Addr)
    ensures a.Number() == b.Number() <==> a == b
  {
    if a.Number() == b.Number() {
      assert 4 * (8 * a.line + a.word - 8 * b.line - b.word) == b.byte - a.byte;
    }
  }

  predicate Misaligned(size: Size, off: Offset) {
    (size == HalfSize && off % 2 == 1) || (size == WordSize && off != 0)
  }

  /** The byte lanes an access covers. */
  function ByteMask(size: Size, off: Offset): Mask {
    match size
    case ByteSize => [off == 0, off == 1, off == 2, off == 3]
    case HalfSize => [off == 0, off == 0 || off == 1, off == 1 || off == 2, off == 2 || off == 3]
    case WordSize => [true, true, true, true]
  }

  predicate Overlaps(a: Mask, b: Mask) {
    (a[0] && b[0]) || (a[1] && b[1]) || (a[2] && b[2]) || (a[3] && b[3])
  }

  predicate Covers(over: Mask, m: Mask) {
    (m[0] ==> over[0]) && (m[1] ==> over[1]) && (m[2] ==> over[2]) && (m[3] ==> over[3])
  }

  /** The two words agree on the lanes of m. */
  ghost predicate AgreeOn(m: Mask, a: Lanes, b: Lanes) {
    forall l :: 0 <= l < 4 && m[l] ==> a[l] == b[l]
  }

  // ---- stores ----

  /** A buffered store: its data is packed, low bytes first. */
  datatype Store = Store(addr: Addr, data: Lanes, mask: Mask)

  /** How many lanes below l are selected. */
  function LanesBelow(m: Mask, l: nat): (n: nat)
    requires l <= 4
    ensures n <= l
  {
    if l == 0 then 0 else LanesBelow(m, l - 1) + if m[l - 1] then 1 else 0
  }

  /** Packed data spread into the selected lanes. */
  function Spread(raw: Lanes, m: Mask): Lanes {
    [if m[0] then raw[LanesBelow(m, 0)] else 0, if m[1] then raw[LanesBelow(m, 1)] else 0,
     if m[2] then raw[LanesBelow(m, 2)] else 0, if m[3] then raw[LanesBelow(m, 3)] else 0]
  }

  /** align_store_word: the lane loop with its running source index. */
  method AlignStoreWord(raw: Lanes, m: Mask) returns (aligned: Lanes)
    ensures aligned == Spread(raw, m)
  {
    aligned := ZERO;
    var src := 0;
    for lane := 0 to 4
      invariant src == LanesBelow(m, lane)
      invariant forall l :: 0 <= l < lane ==> aligned[l] == Spread(raw, m)[l]
      invariant forall l :: lane <= l < 4 ==> aligned[l] == 0
    {
      if m[lane] {
        aligned := aligned[lane := raw[src]];
        src := src + 1;
      }
    }
  }

  /** A word after a store to it. */
  function Merge(was: Lanes, raw: Lanes, m: Mask): Lanes {
    var a := Spread(raw, m);
    [if m[0] then a[0] else was[0], if m[1] then a[1] else was[1],
     if m[2] then a[2] else was[2], if m[3] then a[3] else was[3]]
  }

  /** merge_store: the cache's own lane loop over aligned data. */
  method MergeStore(was: Lanes, raw: Lanes, m: Mask) returns (word: Lanes)
    ensures word == Merge(was, raw, m)
  {
    var aligned := AlignStoreWord(raw, m);
    word := was;
    for lane := 0 to 4
      invariant forall l :: 0 <= l < lane ==> word[l] == Merge(was, raw, m)[l]
      invariant forall l :: lane <= l < 4 ==> word[l] == was[l]
    {
      if m[lane] {
        word := word[lane := aligned[lane]];
      }
    }
  }

  /** For the masks accesses have, byte i of the data lands in lane offset + i. */
  lemma SpreadPlaces(raw: Lanes, size: Size, off: Offset, l: nat)
    requires !Misaligned(size, off) && l < 4 && ByteMask(size, off)[l]
    ensures off <= l && Spread(raw, ByteMask(size, off))[l] == raw[l - off]
  {
    var m := ByteMask(size, off);
    assert LanesBelow(m, 1) == (if m[0] then 1 else 0);
    assert LanesBelow(m, 2) == LanesBelow(m, 1) + (if m[1] then 1 else 0);
    assert LanesBelow(m, 3) == LanesBelow(m, 2) + (if m[2] then 1 else 0);
  }

  // ---- the memory's own write path ----

  /** The mask of a drained store turned back into a size code for the memory port. */
  function SizeFromMask(m: Mask): Size {
    if m == [true, true, false, false] || m == [false, true, true, false] || m == [false, false, true, true] then HalfSize
    else if m == [true, true, true, true] then WordSize
    else ByteSize
  }

  /** The memory's byte enables and placed data for a size and an offset; unsupported pairs write nothing. */
  function ByteEnable(size: Size, off: Offset): Mask {
    if (size == HalfSize && off == 3) || (size == WordSize && off != 0) then [false, false, false, false] else ByteMask(size, off)
  }

  function PlacedData(din: Lanes, size: Size, off: Offset): Lanes {
    match size
    case ByteSize =>
      [if off == 0 then din[0] else 0, if off == 1 then din[0] else 0, if off == 2 then din[0] else 0, if off == 3 then din[0] else 0]
    case HalfSize =>
      if off == 0 then [din[0], din[1], 0, 0] else if off == 1 then [0, din[0], din[1], 0]
      else if off == 2 then [0, 0, din[0], din[1]] else ZERO
    case WordSize => if off == 0 then din else ZERO
  }

  function MemoryWrite(was: Lanes, din: Lanes, size: Size, off: Offset): Lanes {
    var (e, d) := (ByteEnable(size, off), PlacedData(din, size, off));
    [if e[0] then d[0] else was[0], if e[1] then d[1] else was[1], if e[2] then d[2] else was[2], if e[3] then d[3] else was[3]]
  }

  /** Memory and cache agree on what a drained store does to a word, although one goes through a size code and
      the other through the mask. */
  lemma DrainWritesMerge(was: Lanes, raw: Lanes, size: Size, off: Offset)
    requires !Misaligned(size, off)
    ensures MemoryWrite(was, raw, SizeFromMask(ByteMask(size, off)), off) == Merge(was, raw, ByteMask(size, off))
  {
    hide Merge, MemoryWrite;
    var m := ByteMask(size, off);
    assert SizeFromMask(m) == size;
    forall l | 0 <= l < 4
      ensures MemoryWrite(was, raw, size, off)[l] == Merge(was, raw, m)[l]
    {
      MergedLane(was, raw, m, l);
      WrittenLane(was, raw, size, off, l);
      if m[l] {
        SpreadPlaces(raw, size, off, l);
      }
    }
  }

  lemma MergedLane(was: Lanes, raw: Lanes, m: Mask, l: nat)
    requires l < 4
    ensures Merge(was, raw, m)[l] == if m[l] then Spread(raw, m)[l] else was[l]
  {
    hide Spread;
  }

  lemma WrittenLane(was: Lanes, raw: Lanes, size: Size, off: Offset, l: nat)
    requires l < 4 && !Misaligned(size, off)
    ensures ByteMask(size, off)[l] ==> off <= l
    ensures MemoryWrite(was, raw, size, off)[l] == if ByteMask(size, off)[l] then raw[l - off] else was[l]
  {
  }

  // ---- loads ----

  function Extend(sign: Byte, unsigned: bool): Byte {
    if unsigned || sign < 128 then 0 else 255
  }

  /** What a load means: the addressed bytes, extended to a word. */
  function LoadValue(w: Lanes, size: Size, unsigned: bool, off: Offset): Lanes
    requires !Misaligned(size, off)
  {
    match size
    case ByteSize => [w[off], Extend(w[off], unsigned), Extend(w[off], unsigned), Extend(w[off], unsigned)]
    case HalfSize => [w[off], w[off + 1], Extend(w[off + 1], unsigned), Extend(w[off + 1], unsigned)]
    case WordSize => w
  }

  // ---- what accesses mean, as numbers ----

  /** How many bytes an access covers, and how many values they can have. */
  function Width(size: Size): (n: nat)
    ensures 1 <= n <= 4
  {
    match size
    case ByteSize => 1
    case HalfSize => 2
    case WordSize => 4
  }

  function Modulus(size: Size): nat {
    match size
    case ByteSize => 0x100
    case HalfSize => 0x1_0000
    case WordSize => 0x1_0000_0000
  }

  /** The number in the addressed bytes, lowest first. */
  function Number(w: Lanes, size: Size, off: Offset): (n: nat)
    requires off + Width(size) <= 4
    ensures n < Modulus(size)
  {
    match size
    case ByteSize => w[off]
    case HalfSize => w[off] as int + 0x100 * (w[off + 1] as int)
    case WordSize => w[0] as int + 0x100 * (w[1] as int) + 0x1_0000 * (w[2] as int) + 0x100_0000 * (w[3] as int)
  }

  /** The same bits as a two's-complement number. */
  function AsSigned(n: nat, modulus: nat): int {
    if 2 * n >= modulus then n - modulus else n
  }

  /** The word v is what a load of these bytes yields: the same natural number, or the same signed one. */
  ghost predicate Reads(v: nat, w: Lanes, size: Size, unsigned: bool, off: Offset) {
    && off + Width(size) <= 4 && v < 0x1_0000_0000
    && if unsigned then v == Number(w, size, off)
       else AsSigned(v, 0x1_0000_0000) == AsSigned(Number(w, size, off), Modulus(size))
  }

  /** Byte k of a word. */
  function ByteOf(v: nat, k: nat): Byte
    requires k < 4
  {
    if k == 0 then v % 0x100 else if k == 1 then v / 0x100 % 0x100 else if k == 2 then v / 0x1_0000 % 0x100 else v / 0x100_0000 % 0x100
  }

  /** An access is misaligned if its address is no multiple of its width; an aligned one stays in its word. */
  lemma MisalignedMeans(size: Size, a: Addr)
    ensures Misaligned(size, a.byte) <==> a.Number() % Width(size) != 0
    ensures !Misaligned(size, a.byte) ==> a.byte + Width(size) <= 4
  {
    LowBits(8 * a.line + a.word, a.byte);
    assert a.Number() == 4 * (8 * a.line + a.word) + a.byte;
  }

  lemma LowBits(k: nat, off: Offset)
    ensures (4 * k + off) % 4 == off && (4 * k + off) % 2 == off % 2
  {
    LowTwoBits(k, off);
    LowBit(2 * k + off / 2, off % 2);
    assert 4 * k + off == 2 * (2 * k + off / 2) + off % 2;
  }

  lemma LowBit(q: nat, r: nat)
    requires r < 2
    ensures (2 * q + r) % 2 == r
  {
  }

  lemma LowTwoBits(q: nat, r: nat)
    requires r < 4
    ensures (4 * q + r) % 4 == r
  {
  }

  /** A load zero-extends or sign-extends: it yields the number of the addressed bytes, and only that one. */
  lemma LoadMeans(w: Lanes, size: Size, unsigned: bool, off: Offset, v: nat)
    requires !Misaligned(size, off)
    ensures Reads(v, w, size, unsigned, off) <==> v == Number(LoadValue(w, size, unsigned, off), WordSize, 0)
  {
  }

  /** A store changes the addressed bytes, to its data's bytes in order, and no other. */
  lemma MergeMeans(was: Lanes, data: Lanes, size: Size, off: Offset, lane: nat)
    requires !Misaligned(size, off) && lane < 4
    ensures Merge(was, data, ByteMask(size, off))[lane] == if off <= lane < off + Width(size) then data[lane - off] else was[lane]
  {
    hide Merge, Spread;
    var m := ByteMask(size, off);
    MergedLane(was, data, m, lane);
    if m[lane] {
      SpreadPlaces(data, size, off, lane);
    }
  }

  /** format_load, and the same select in the data cache: a half is the upper or the lower one by bit 1. */
  function FormatLoad(w: Lanes, size: Size, unsigned: bool, off: Offset): Lanes {
    match size
    case ByteSize => [w[off], Extend(w[off], unsigned), Extend(w[off], unsigned), Extend(w[off], unsigned)]
    case HalfSize =>
      var lo, hi := if off >= 2 then w[2] else w[0], if off >= 2 then w[3] else w[1];
      [lo, hi, Extend(hi, unsigned), Extend(hi, unsigned)]
    case WordSize => w
  }

  /** The memory's read table: an entry for every supported size and offset, zero otherwise. */
  function MemoryRead(w: Lanes, size: Size, unsigned: bool, off: Offset): Lanes {
    match size
    case ByteSize => [w[off], Extend(w[off], unsigned), Extend(w[off], unsigned), Extend(w[off], unsigned)]
    case HalfSize =>
      if off == 3 then ZERO else [w[off], w[off + 1], Extend(w[off + 1], unsigned), Extend(w[off + 1], unsigned)]
    case WordSize => if off == 0 && !unsigned then w else ZERO
  }

  /** A logical shift right by whole bytes. */
  function ShiftDown(w: Lanes, off: Offset): Lanes {
    [w[off], if off < 3 then w[off + 1] else 0, if off < 2 then w[off + 2] else 0, if off < 1 then w[3] else 0]
  }

  function ShiftUp(w: Lanes, off: Offset): Lanes {
    [if off == 0 then w[0] else 0, if off == 0 then w[1] else if off == 1 then w[0] else 0,
     if off == 0 then w[2] else if off == 1 then w[1] else if off == 2 then w[0] else 0, w[3 - off]]
  }

  /** The store queue's forwarded value: the store's data shifted up to its lanes, then down to the load's. */
  function ForwardValue(data: Lanes, storeOff: Offset, size: Size, unsigned: bool, off: Offset): Lanes {
    var word := ShiftUp(data, storeOff);
    var s := ShiftDown(word, off);
    match size
    case ByteSize => [s[0], Extend(s[0], unsigned), Extend(s[0], unsigned), Extend(s[0], unsigned)]
    case HalfSize => [s[0], s[1], Extend(s[1], unsigned), Extend(s[1], unsigned)]
    case WordSize => word
  }

  /** The formatters give the same value for every aligned access, but for the one access the memory's table
      leaves out: an unsigned word, which it reads as zero. */
  lemma FormattersAgree(w: Lanes, size: Size, unsigned: bool, off: Offset)
    requires !Misaligned(size, off)
    ensures FormatLoad(w, size, unsigned, off) == LoadValue(w, size, unsigned, off)
    ensures MemoryRead(w, size, unsigned, off) == LoadValue(w, size, unsigned, off) <==> (size == WordSize && unsigned ==> w == ZERO)
  {
  }

  /** Only the lanes the load covers matter. */
  lemma LoadReadsItsLanes(v: Lanes, w: Lanes, size: Size, unsigned: bool, off: Offset)
    requires !Misaligned(size, off) && AgreeOn(ByteMask(size, off), v, w)
    ensures LoadValue(v, size, unsigned, off) == LoadValue(w, size, unsigned, off)
  {
    assert ByteMask(size, off)[off];
    if size == HalfSize {
      assert ByteMask(size, off)[off + 1];
    } else if size == WordSize {
      assert ByteMask(size, off)[0] && ByteMask(size, off)[1] && ByteMask(size, off)[2] && ByteMask(size, off)[3];
    }
  }

  /** A store that covers a load forwards exactly what a merge of it into any word would give the load. */
  lemma ForwardIsMerge(was: Lanes, data: Lanes, storeSize: Size, storeOff: Offset, size: Size, unsigned: bool, off: Offset)
    requires !Misaligned(storeSize, storeOff) && !Misaligned(size, off)
    requires Covers(ByteMask(storeSize, storeOff), ByteMask(size, off))
    ensures ForwardValue(data, storeOff, size, unsigned, off) ==
            LoadValue(Merge(was, data, ByteMask(storeSize, storeOff)), size, unsigned, off)
  {
    hide Merge, LoadValue, ForwardValue, ShiftUp;
    var m := ByteMask(storeSize, storeOff);
    var w := Merge(was, data, m);
    forall l | 0 <= l < 4 && ByteMask(size, off)[l]
      ensures ShiftUp(data, storeOff)[l] == w[l]
    {
      SpreadPlaces(data, storeSize, storeOff, l);
      MergedLane(was, data, m, l);
      ShiftedLane(data, storeOff, l);
    }
    LoadReadsItsLanes(ShiftUp(data, storeOff), w, size, unsigned, off);
    ForwardFormats(data, storeOff, size, unsigned, off);
  }

  lemma ShiftedLane(w: Lanes, off: Offset, l: nat)
    requires off <= l < 4
    ensures ShiftUp(w, off)[l] == w[l - off]
  {
  }

  lemma ForwardFormats(data: Lanes, storeOff: Offset, size: Size, unsigned: bool, off: Offset)
    requires !Misaligned(size, off)
    ensures ForwardValue(data, storeOff, size, unsigned, off) == LoadValue(ShiftUp(data, storeOff), size, unsigned, off)
  {
    hide ShiftUp;
  }
}
