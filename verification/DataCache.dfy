/** The data cache's arrays, refill controller and memory, each proved against the step of the data side. */
module DataCache {
  import opened Prelude
  import opened Bytes
  import opened StoreBuffer
  import opened DataSide

  /** The signals that drive the cache arrays for one edge. */
  datatype Drive = Drive(enableWrite: bool, select: WordIndex, last: bool, word: Lanes, fillTag: nat, atomic: Option<nat>, drain: Option<Store>)

  /** The cache's lines after one edge: a refill beat first, else an atomic's invalidation, else a drained store
      that hits. */
  function LinesAfter(lines: seq<Line>, victim: nat, d: Drive): seq<Line> {
    if d.enableWrite then
      if victim < |lines| then
        var words := SetWord(lines[victim].words, d.select, d.word);
        lines[victim := if d.last then Line(true, d.fillTag, words) else lines[victim].(words := words)]
      else lines
    else if d.atomic.Some? then
      var l := HitLine(lines, d.atomic.value);
      if l.Some? then lines[l.value := lines[l.value].(valid := false)] else lines
    else if d.drain.Some? && HitLine(lines, d.drain.value.addr.line).Some? then
      var l, st := HitLine(lines, d.drain.value.addr.line).value, d.drain.value;
      lines[l := lines[l].(words := SetWord(lines[l].words, st.addr.word, Merge(lines[l].words[st.addr.word], st.data, st.mask)))]
    else lines
  }

  /** What the controller and the store buffer drive in state s. */
  function DriveOf<P>(s: State<P>): Drive {
    if s.fill && s.ld.Some? && 1 <= s.count <= 8 then Drive(true, s.count - 1, s.count == 8, s.readReg, s.ld.value.addr.line, None, None)
    else Drive(false, 0, false, ZERO, 0, None, if Drains(s) && s.Cacheable(s.sb[0].addr) then Some(s.sb[0]) else None)
  }

  /** Driven so, the arrays move as the data side's step says. */
  lemma ArraysFollowStep<P>(p: Policy<P>, s: State<P>)
    requires s.fill ==> s.ld.Some? && 1 <= s.count <= 8
    ensures LinesAfter(s.lines, Victim(p, s.lines, s.pol), DriveOf(s)) == LinesNext(p, s)
  {
    hide HitLine, Merge;
  }

  /** After an atomic's cycle no line answers for its address, and every other valid line is as it was. */
  lemma AtomicInvalidates(lines: seq<Line>, victim: nat, d: Drive, tag: nat)
    requires !d.enableWrite && d.atomic == Some(tag)
    requires forall i, j :: 0 <= i < j < |lines| && lines[i].valid && lines[j].valid ==> lines[i].tag != lines[j].tag
    ensures var after := LinesAfter(lines, victim, d);
            && HitLine(after, tag).None? && |after| == |lines|
            && forall i :: 0 <= i < |lines| && (lines[i].valid ==> lines[i].tag != tag) ==> after[i] == lines[i]
  {
    hide HitLine;
    assert HitLine(LinesAfter(lines, victim, d), tag).None?;
  }

  class DataCache {
    const valid: array<bool>
    const tags: array<nat>
    const data: array<Words>

    ghost predicate Valid() {
      valid.Length == tags.Length == data.Length
    }

    ghost function Rows(n: nat): (ls: seq<Line>)
      requires Valid() && n <= data.Length
      reads valid, tags, data
      ensures |ls| == n && forall i :: 0 <= i < n ==> ls[i] == Line(valid[i], tags[i], data[i])
    {
      if n == 0 then [] else Rows(n - 1) + [Line(valid[n - 1], tags[n - 1], data[n - 1])]
    }

    ghost function Contents(): seq<Line>
      requires Valid()
      reads valid, tags, data
    {
      Rows(data.Length)
    }

    constructor (lines: nat)
      ensures Valid() && data.Length == lines && fresh(valid) && fresh(tags) && fresh(data)
      ensures forall i :: 0 <= i < lines ==> !Contents()[i].valid
    {
      valid := new bool[lines](_ => false);
      tags := new nat[lines](_ => 0);
      data := new Words[lines](_ => [ZERO, ZERO, ZERO, ZERO, ZERO, ZERO, ZERO, ZERO]);
    }

    /** A lookup port: every line is compared, the last match wins. */
    method Lookup(tag: nat) returns (line: Option<nat>)
      requires Valid()
      ensures line == HitLine(Contents(), tag)
    {
      line := None;
      ghost var ls := Contents();
      for l := 0 to data.Length
        invariant line == HitLine(ls[..l], tag)
      {
        assert ls[..l + 1][..l] == ls[..l];
        if valid[l] && tags[l] == tag {
          line := Some(l);
        }
      }
      assert ls[..data.Length] == ls;
    }

    /** The victim: the lowest invalid line if there is one, else the policy's. */
    method VictimLine(policyVictim: nat) returns (line: nat)
      requires Valid()
      ensures line == if FirstInvalid(Contents()) < |Contents()| then FirstInvalid(Contents()) else policyVictim
    {
      var anyInvalid, first := false, 0;
      ghost var ls := Contents();
      var l: nat := data.Length;
      while l > 0
        invariant l <= data.Length
        invariant anyInvalid ==> l <= first < data.Length && !valid[first] && forall j :: l <= j < first ==> valid[j]
        invariant !anyInvalid ==> forall j :: l <= j < data.Length ==> valid[j]
      {
        l := l - 1;
        if !valid[l] {
          anyInvalid, first := true, l;
        }
      }
      FirstInvalidIs(ls, if anyInvalid then first else data.Length);
      line := if anyInvalid then first else policyVictim;
    }

    /** Writes one whole line's entries and leaves the others alone. */
    method SetLine(l: nat, v: bool, tag: nat, words: Words)
      requires Valid() && l < data.Length
      modifies valid, tags, data
      ensures Contents() == old(Contents())[l := Line(v, tag, words)]
    {
      valid[l], tags[l], data[l] := v, tag, words;
      assert |Contents()| == |old(Contents())|;
    }

    /** One clock edge. */
    method Clock(victim: nat, d: Drive)
      requires Valid() && (d.enableWrite ==> victim < data.Length)
      modifies valid, tags, data
      ensures Contents() == LinesAfter(old(Contents()), victim, d)
    {
      hide Rows, HitLine, Merge;
      ContentsAt();
      if d.enableWrite {
        var words := SetWord(data[victim], d.select, d.word);
        SetLine(victim, valid[victim] || d.last, if d.last then d.fillTag else tags[victim], words);
      } else if d.atomic.Some? {
        var hit := Lookup(d.atomic.value);
        if hit.Some? {
          SetLine(hit.value, false, tags[hit.value], data[hit.value]);
        }
      } else if d.drain.Some? {
        var st := d.drain.value;
        var hit := Lookup(st.addr.line);
        if hit.Some? {
          var word := MergeStore(data[hit.value][st.addr.word], st.data, st.mask);
          SetLine(hit.value, valid[hit.value], tags[hit.value], SetWord(data[hit.value], st.addr.word, word));
        }
      }
    }

    lemma ContentsAt()
      requires Valid()
      ensures |Contents()| == data.Length && forall i :: 0 <= i < data.Length ==> Contents()[i] == Line(valid[i], tags[i], data[i])
    {
    }
  }

  lemma {:induction false} FirstInvalidIs(ls: seq<Line>, n: nat)
    requires n <= |ls| && (n < |ls| ==> !ls[n].valid) && forall i :: 0 <= i < n ==> ls[i].valid
    ensures FirstInvalid(ls) == n
  {
    if n > 0 {
      FirstInvalidIs(ls[1..], n - 1);
    }
  }

  // ---- the refill controller ----

  /** The memory port as the controller drives it. */
  datatype Port = Port(read: bool, write: bool, addr: Addr, din: Lanes, size: Size)

  class RefillController {
    var fillCache: bool
    var uncachedWait: bool
    var count: nat

    /** The controller's registers are those of the data side's state. */
    ghost predicate Holds<P>(s: State<P>)
      reads this
    {
      fillCache == s.fill && uncachedWait == s.uncachedWait && count == s.count && (s.fill ==> 1 <= s.count <= 8)
    }

    /** The combinational outputs for the signals of state s: stall, the beat being written, the memory port,
        and whether the oldest buffered store drains. */
    method Outputs<P>(ghost s: State<P>, read: bool, addr: Addr, size: Size, ready: bool, hit: bool, forward: Found, empty: bool, oldest: Store)
      returns (stall: bool, enableWrite: bool, select: WordIndex, last: bool, port: Port, drain: bool)
      requires Holds(s) && read == s.ld.Some? && empty == (s.sb == []) && (!empty ==> oldest == s.sb[0])
      requires read ==> addr == s.ld.value.addr && size == s.ld.value.size && ready == s.Cacheable(addr) && hit == LoadHits(s) && forward == Forwarded(s)
      requires !read ==> forward.Miss? && !hit
      ensures stall == Stalls(s) && drain == Drains(s)
      ensures enableWrite == s.fill && (enableWrite ==> select == s.count - 1 && last == (s.count == 8))
      ensures port.write == Drains(s) && (port.write ==> port.addr == s.sb[0].addr && port.din == s.sb[0].data && port.size == SizeFromMask(s.sb[0].mask))
      ensures port.read == (StartFill(s) || StartUncached(s) || (s.fill && s.count <= 7))
      ensures StartFill(s) ==> port.addr == Addr(addr.line, 0, 0) && port.size == WordSize
      ensures s.fill && s.count <= 7 ==> port.addr == Addr(addr.line, s.count, 0) && port.size == WordSize
      ensures s.fill && s.count == 8 ==> port.addr == Addr(addr.line, 7, 0) && port.size == WordSize
      ensures StartUncached(s) ==> port.addr == addr && port.size == size
    {
      hide Search, HitLine;
      var cachedMiss := read && ready && !hit && forward.Miss?;
      var uncached := read && !ready && forward.Miss?;
      var waiting := (cachedMiss || uncached) && !empty;
      var startFill := cachedMiss && !fillCache && !uncachedWait && empty;
      var startUncached := uncached && !fillCache && !uncachedWait && empty;
      drain := !empty && !fillCache && !uncachedWait;
      stall, enableWrite, select, last := false, false, 0, false;
      port := Port(false, false, addr, ZERO, size);
      if startFill {
        stall := true;
        port := Port(true, false, Addr(addr.line, 0, 0), ZERO, WordSize);
      } else if fillCache {
        stall, enableWrite := true, true;
        if count <= 7 {
          select := count - 1;
          port := Port(true, false, Addr(addr.line, count, 0), ZERO, WordSize);
        } else {
          select, last := 7, true;
          port := Port(false, false, Addr(addr.line, 7, 0), ZERO, WordSize);
        }
      } else {
        stall := forward.Conflict? || waiting || startUncached;
        if drain {
          port := Port(false, true, oldest.addr, oldest.data, SizeFromMask(oldest.mask));
        } else if startUncached {
          port := port.(read := true);
        }
      }
    }

    /** One clock edge. */
    method Clock<P>(ghost s: State<P>, startFill: bool, startUncached: bool)
      requires Holds(s) && startFill == StartFill(s) && startUncached == StartUncached(s)
      modifies this
      ensures fillCache == FillNext(s).0 && count == FillNext(s).1 && uncachedWait == StartUncached(s)
    {
      if fillCache {
        if count == 8 {
          fillCache, count := false, 0;
        } else {
          count := count + 1;
        }
      } else if startFill {
        fillCache, count := true, 1;
      } else {
        count := 0;
      }
      if uncachedWait {
        uncachedWait := false;
      } else if startUncached {
        uncachedWait := true;
      }
    }
  }

  // ---- memory ----

  class Memory {
    const words: array<Lanes>
    var readWord: Lanes

    ghost predicate Holds(ram: seq<Words>)
      reads words
    {
      words.Length == 8 * |ram| && forall l: nat, w: WordIndex :: l < |ram| ==> words[8 * l + w] == ram[l][w]
    }

    constructor (lines: nat)
      ensures fresh(words) && words.Length == 8 * lines && readWord == ZERO
    {
      words := new Lanes[8 * lines](_ => ZERO);
      readWord := ZERO;
    }

    /** Block RAM: a byte-enabled write, one lane at a time, and a registered read that sees the old word. */
    method Clock(port: Port)
      requires port.addr.line < words.Length / 8
      modifies this, words
      ensures var i := 8 * port.addr.line + port.addr.word;
              && (forall j :: 0 <= j < words.Length && j != i ==> words[j] == old(words[j]))
              && words[i] == (if port.write then MemoryWrite(old(words[i]), port.din, port.size, port.addr.byte) else old(words[i]))
              && readWord == (if port.read then old(words[i]) else old(readWord))
    {
      hide ByteEnable, PlacedData;
      var i := 8 * port.addr.line + port.addr.word;
      var before := words[i];
      if port.write {
        var enable, placed := ByteEnable(port.size, port.addr.byte), PlacedData(port.din, port.size, port.addr.byte);
        for lane := 0 to 4
          invariant readWord == old(readWord)
          invariant forall j :: 0 <= j < words.Length && j != i ==> words[j] == old(words[j])
          invariant forall l :: 0 <= l < lane ==> words[i][l] == if enable[l] then placed[l] else before[l]
          invariant forall l :: lane <= l < 4 ==> words[i][l] == before[l]
        {
          if enable[lane] {
            words[i] := words[i][lane := placed[lane]];
          }
        }
        assert words[i] == MemoryWrite(before, port.din, port.size, port.addr.byte);
      }
      if port.read {
        readWord := before;
      }
    }
  }

  /** Driven through the controller's port, memory and its read register move as the data side's step says. */
  lemma MemoryFollowsStep<P>(s: State<P>, before: seq<Lanes>, after: seq<Lanes>, readBefore: Lanes, readAfter: Lanes, port: Port)
    requires |before| == |after| == 8 * |s.ram| && readBefore == s.readReg
    requires forall l: nat, w: WordIndex :: l < |s.ram| ==> before[8 * l + w] == s.ram[l][w]
    requires port.write == Drains(s) && (port.write ==> port.addr == s.sb[0].addr && port.din == s.sb[0].data && port.size == SizeFromMask(s.sb[0].mask))
    requires port.read == (StartFill(s) || StartUncached(s) || (s.fill && s.count <= 7))
    requires s.fill ==> s.ld.Some? && s.Cacheable(s.ld.value.addr)
    requires StartFill(s) ==> port.addr == Addr(s.ld.value.addr.line, 0, 0)
    requires s.fill && s.count <= 7 ==> port.addr == Addr(s.ld.value.addr.line, s.count, 0)
    requires port.addr.line < |s.ram|
    requires var i := 8 * port.addr.line + port.addr.word;
             && (forall j :: 0 <= j < |before| && j != i ==> after[j] == before[j])
             && after[i] == (if port.write then MemoryWrite(before[i], port.din, port.size, port.addr.byte) else before[i])
             && readAfter == (if port.read then before[i] else readBefore)
    ensures |MemoryNext(s)| == |s.ram|
    ensures forall l: nat, w: WordIndex :: l < |s.ram| ==> after[8 * l + w] == MemoryNext(s)[l][w]
    ensures !StartUncached(s) ==> readAfter == ReadNext(s)
  {
    hide MemoryWrite, SizeFromMask, CachedMiss;
    var i := 8 * port.addr.line + port.addr.word;
    forall l: nat, w: WordIndex | l < |s.ram|
      ensures after[8 * l + w] == MemoryNext(s)[l][w]
    {
      OneWord(l, w, port.addr.line, port.addr.word);
    }
    StartFillLoads(s);
  }

  lemma StartFillLoads<P>(s: State<P>)
    ensures StartFill(s) ==> s.ld.Some? && s.Cacheable(s.ld.value.addr) && !s.fill && s.sb == []
  {
  }

  lemma OneWord(l: nat, w: WordIndex, l': nat, w': WordIndex)
    ensures 8 * l + w == 8 * l' + w' <==> l == l' && w == w'
  {
    if 8 * l + w == 8 * l' + w' {
      assert 8 * (l - l') == w' - w;
    }
  }
}
