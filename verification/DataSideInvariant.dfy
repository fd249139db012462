/** What holds in every reachable state of the data side, and why each step keeps it: memory and cache, the
    refill in progress, the order of stores, and what the load under way sees. */
module DataSideInvariant {
  import opened Prelude
  import opened Bytes
  import opened StoreBuffer
  import opened DataSide

  /** The word at a after a list of stores, starting from the initial memory. */
  function MemoryWord(ram0: seq<Words>, qs: seq<Queued>, a: Addr): Lanes
    requires a.line < |ram0|
  {
    WordAfter(ram0[a.line][a.word], AsStores(qs), a)
  }

  /** The configuration: a policy names a line that exists. */
  ghost predicate Fits<P(!new)>(p: Policy<P>, s: State<P>) {
    |s.lines| > 0 && forall q: P :: p.victim(q) < |s.lines|
  }

  // ---- memory and cache ----

  /** The store buffer is the committed stores not yet written, and memory is the initial one after the rest. */
  ghost predicate Written<P>(ram0: seq<Words>, s: State<P>) {
    && s.writes + s.sb == AsStores(s.committed) && |s.ram| == |ram0|
    && forall l: nat, w: WordIndex :: l < |s.ram| ==> s.ram[l][w] == WordAfter(ram0[l][w], s.writes, Addr(l, w, 0))
  }

  /** No two valid lines share a tag, and every tag is of cacheable memory. */
  ghost predicate TagsDiffer(lines: seq<Line>, size: nat) {
    && (forall i :: 0 <= i < |lines| && lines[i].valid ==> lines[i].tag < size)
    && forall i, j :: 0 <= i < j < |lines| && lines[i].valid && lines[j].valid ==> lines[i].tag != lines[j].tag
  }

  /** Every valid line equals memory, except the victim while it is being overwritten. */
  ghost predicate Coherent<P>(p: Policy<P>, s: State<P>) {
    forall i :: 0 <= i < |s.lines| && s.lines[i].valid && s.lines[i].tag < |s.ram| && !(s.fill && i == Victim(p, s.lines, s.pol)) ==>
      s.lines[i].words == s.ram[s.lines[i].tag]
  }

  /** A refill serves the waiting load, whose line is in no other line of the cache; the words already written
      into the victim, and the word in the read register, are memory's. */
  ghost predicate Refilling<P>(p: Policy<P>, s: State<P>) {
    s.fill ==>
      && 1 <= s.count <= 8 && !s.uncachedWait && s.ld.Some? && s.Cacheable(s.ld.value.addr)
      && HitLine(s.lines, s.ld.value.addr.line).None? && Victim(p, s.lines, s.pol) < |s.lines|
      && s.readReg == s.ram[s.ld.value.addr.line][s.count - 1]
      && forall k :: 0 <= k < s.count - 1 ==> s.lines[Victim(p, s.lines, s.pol)].words[k] == s.ram[s.ld.value.addr.line][k]
  }

  ghost predicate Waiting<P>(s: State<P>) {
    s.uncachedWait ==> s.ld.Some? && !s.Cacheable(s.ld.value.addr)
  }

  // ---- program order ----

  ghost predicate Increasing(qs: seq<Queued>, bound: nat) {
    && (forall i :: 0 <= i < |qs| ==> qs[i].stamp < bound)
    && forall i, j :: 0 <= i < j < |qs| ==> qs[i].stamp < qs[j].stamp
  }

  /** Committed stores, then queued ones, are in program order; none of them was ever dropped. */
  ghost predicate Ordered<P>(s: State<P>) {
    && Increasing(s.committed + s.sq, s.nextStamp)
    && (forall q :: q in s.committed + s.sq ==> q.stamp !in s.dropped && !Misaligned(q.size, q.addr.byte))
    && (forall d :: d in s.dropped ==> d < s.nextStamp)
  }

  /** The load under way sees, on its own byte lanes, exactly its older stores: those committed since do not
      touch them, and neither do the older ones still queued. */
  ghost predicate LoadSees<P>(ram0: seq<Words>, s: State<P>) {
    s.ld.Some? && !s.ld.value.squashed ==>
      var ld := s.ld.value;
      && ld.stamp < s.nextStamp && !Misaligned(ld.size, ld.addr.byte)
      && (s.Cacheable(ld.addr) && |s.ram| == |ram0| ==>
            && AgreeOn(ld.Mask(), MemoryWord(ram0, s.committed, ld.addr), MemoryWord(ram0, ld.older, ld.addr))
            && forall q :: q in s.sq && q.stamp < ld.stamp ==> !Touches(q.AsStore(), ld.addr, ld.Mask()))
  }

  /** `older` is exactly the surviving stores before the load in program order: a prefix of the committed and
      queued stores, all older than the load, while everything after it is younger. */
  ghost predicate IsExact(ld: Load, all: seq<Queued>) {
    var n := |ld.older|;
    && n <= |all| && ld.older == all[..n]
    && (forall k :: 0 <= k < n ==> all[k].stamp < ld.stamp)
    && (forall k :: n <= k < |all| ==> all[k].stamp > ld.stamp)
  }

  /** That holds of the load under way, and of a finished one that waits for a bus, wherever it was answered. */
  ghost predicate OlderExact<P>(s: State<P>) {
    && (s.ld.Some? && !s.ld.value.squashed ==> IsExact(s.ld.value, s.committed + s.sq))
    && (s.out.Some? && s.out.value.LoadDone? ==>
          s.out.value.stamp == s.out.value.load.stamp < s.nextStamp && IsExact(s.out.value.load, s.committed + s.sq))
  }

  /** A load's value is what the program-order memory of its older stores holds. */
  ghost predicate RightValue(ram0: seq<Words>, value: Lanes, ld: Load) {
    ld.addr.line < |ram0| && !Misaligned(ld.size, ld.addr.byte) ==>
      value == LoadValue(MemoryWord(ram0, ld.older, ld.addr), ld.size, ld.unsigned, ld.addr.byte)
  }

  ghost predicate OutRight<P>(ram0: seq<Words>, s: State<P>) {
    s.out.Some? && s.out.value.LoadDone? ==> RightValue(ram0, s.out.value.value, s.out.value.load)
  }

  ghost predicate Inv<P(!new)>(p: Policy<P>, ram0: seq<Words>, s: State<P>) {
    && Fits(p, s) && Written(ram0, s) && TagsDiffer(s.lines, |s.ram|) && Coherent(p, s) && Refilling(p, s) && Waiting(s)
    && Ordered(s) && OlderExact(s) && LoadSees(ram0, s) && OutRight(ram0, s)
  }

  // ---- lists of queued stores ----

  lemma {:induction false} AsStoresAppend(a: seq<Queued>, b: seq<Queued>)
    ensures AsStores(a + b) == AsStores(a) + AsStores(b)
  {
    hide Queued.AsStore;
    if |b| == 0 {
      assert a + b == a;
    } else {
      AsStoresAppend(a, b[..|b| - 1]);
      assert (a + b)[..|a + b| - 1] == a + b[..|b| - 1];
    }
  }

  lemma {:induction false} WordAfterSameWord(w: Lanes, ss: seq<Store>, a: Addr, b: Addr)
    requires a.SameWord(b)
    ensures WordAfter(w, ss, a) == WordAfter(w, ss, b)
  {
    hide Merge;
    if |ss| > 0 {
      WordAfterSameWord(w, ss[..|ss| - 1], a, b);
    }
  }

  // ---- draining ----

  lemma DrainedStore<P>(ram0: seq<Words>, s: State<P>)
    requires Written(ram0, s) && Ordered(s) && s.sb != []
    ensures |s.writes| < |s.committed| && s.sb[0] == s.committed[|s.writes|].AsStore()
    ensures !Misaligned(s.committed[|s.writes|].size, s.committed[|s.writes|].addr.byte)
  {
    assert (s.writes + s.sb)[|s.writes|] == s.sb[0];
    assert (s.committed + s.sq)[|s.writes|] == s.committed[|s.writes|];
  }

  /** What one drain does to memory, word by word: the same merge the cache does. */
  lemma MemoryNextWord<P>(ram0: seq<Words>, s: State<P>, l: nat, w: WordIndex)
    requires Written(ram0, s) && Ordered(s) && l < |s.ram|
    ensures |MemoryNext(s)| == |s.ram|
    ensures MemoryNext(s)[l][w] ==
            if Drains(s) && s.sb[0].addr.SameWord(Addr(l, w, 0)) then Merge(s.ram[l][w], s.sb[0].data, s.sb[0].mask) else s.ram[l][w]
  {
    hide MemoryWrite, Merge, SizeFromMask, ByteMask, WordAfter;
    if Drains(s) {
      DrainedStore(ram0, s);
      var q := s.committed[|s.writes|];
      DrainWritesMerge(s.ram[l][w], q.data, q.size, q.addr.byte);
    }
  }

  /** Moving the oldest element from one list to another and adding elements keeps what they hold together. */
  lemma MoveOldest(a: seq<Store>, b: seq<Store>, moves: bool, more: seq<Store>)
    requires moves ==> b != []
    ensures (if moves then a + [b[0]] else a) + ((if moves then b[1..] else b) + more) == (a + b) + more
  {
  }

  /** Nothing is lost between commit and memory, and nothing is added. */
  lemma LogStep<P>(p: Policy<P>, s: State<P>, x: Inputs)
    requires s.writes + s.sb == AsStores(s.committed) && Allowed(s, x)
    ensures var s' := Next(p, s, x); s'.writes + s'.sb == AsStores(s'.committed)
  {
    hide MemoryNext, LinesNext, PolicyNext, ReadNext, LoadNext, OutNext, QueueNext, Drains, FillNext, StartUncached, DroppedNext, HeadTaken;
    if Drains(s) {
      DrainNonEmpty(s);
    }
    MoveOldest(s.writes, s.sb, Drains(s), if x.commit then [s.sq[0].AsStore()] else []);
    if x.commit {
      CommitOne(s.committed, s.sq[0]);
    }
  }

  lemma CommitOne(qs: seq<Queued>, q: Queued)
    ensures AsStores(qs + [q]) == AsStores(qs) + [q.AsStore()]
  {
    assert (qs + [q])[..|qs|] == qs;
  }

  lemma WrittenStep<P>(p: Policy<P>, ram0: seq<Words>, s: State<P>, x: Inputs)
    requires Written(ram0, s) && Ordered(s) && Allowed(s, x)
    ensures Written(ram0, Next(p, s, x))
  {
    hide MemoryNext, Merge, WordAfter, LinesNext, PolicyNext, ReadNext, LoadNext, OutNext, QueueNext, Drains, FillNext, StartUncached,
         DroppedNext, HeadTaken, AsStores;
    LogStep(p, s, x);
    MemorySize(s);
    var s' := Next(p, s, x);
    forall l: nat, w: WordIndex | l < |s'.ram|
      ensures s'.ram[l][w] == WordAfter(ram0[l][w], s'.writes, Addr(l, w, 0))
    {
      MemoryNextWord(ram0, s, l, w);
      if Drains(s) {
        DrainNonEmpty(s);
        WordAfterSnoc(ram0[l][w], s.writes, s.sb[0], Addr(l, w, 0));
      }
    }
  }

  lemma DrainNonEmpty<P>(s: State<P>)
    requires Drains(s)
    ensures s.sb != [] && !s.fill
  {
  }

  lemma MemorySize<P>(s: State<P>)
    ensures |MemoryNext(s)| == |s.ram|
  {
  }

  // ---- the cache ----

  lemma HitLineUnique(lines: seq<Line>, size: nat, i: nat)
    requires TagsDiffer(lines, size) && i < |lines| && lines[i].valid
    ensures HitLine(lines, lines[i].tag) == Some(i)
  {
  }

  /** While no tag or valid bit changes, and no line is touched, the victim stays the same line. */
  lemma {:induction false} FirstInvalidSame(a: seq<Line>, b: seq<Line>)
    requires |a| == |b| && forall i :: 0 <= i < |a| ==> a[i].valid == b[i].valid
    ensures FirstInvalid(a) == FirstInvalid(b)
  {
    if |a| > 0 && a[0].valid {
      FirstInvalidSame(a[1..], b[1..]);
    }
  }

  lemma {:induction false} HitLineSame(a: seq<Line>, b: seq<Line>, tag: nat)
    requires |a| == |b| && forall i :: 0 <= i < |a| ==> a[i].valid == b[i].valid && a[i].tag == b[i].tag
    ensures HitLine(a, tag) == HitLine(b, tag)
  {
    if |a| > 0 {
      HitLineSame(a[..|a| - 1], b[..|b| - 1], tag);
    }
  }

  /** A refill beat before the last one: only data in the victim changes. */
  lemma BeatKeepsTags<P>(p: Policy<P>, s: State<P>)
    requires s.fill && Refilling(p, s) && s.count < 8
    ensures var ls := LinesNext(p, s);
            && |ls| == |s.lines| && (forall i :: 0 <= i < |ls| ==> ls[i].valid == s.lines[i].valid && ls[i].tag == s.lines[i].tag)
            && Victim(p, ls, PolicyNext(p, s)) == Victim(p, s.lines, s.pol)
            && HitLine(ls, s.ld.value.addr.line).None?
            && (forall i :: 0 <= i < |ls| && i != Victim(p, s.lines, s.pol) ==> ls[i] == s.lines[i])
            && ls[Victim(p, s.lines, s.pol)].words == s.lines[Victim(p, s.lines, s.pol)].words[s.count - 1 := s.readReg]
  {
    hide HitLine;
    var ls := LinesNext(p, s);
    assert forall i :: 0 <= i < |ls| ==> ls[i].valid == s.lines[i].valid && ls[i].tag == s.lines[i].tag;
    FirstInvalidSame(s.lines, ls);
    HitLineSame(s.lines, ls, s.ld.value.addr.line);
  }

  /** The last beat: the victim is now the whole line of the load, and nobody else holds that line. */
  lemma LastBeat<P>(p: Policy<P>, ram0: seq<Words>, s: State<P>)
    requires s.fill && Refilling(p, s) && s.count == 8 && TagsDiffer(s.lines, |s.ram|)
    ensures var ls, v := LinesNext(p, s), Victim(p, s.lines, s.pol);
            && v < |s.lines| && ls == s.lines[v := Line(true, s.ld.value.addr.line, s.ram[s.ld.value.addr.line])]
            && |ls| == |s.lines| && TagsDiffer(ls, |s.ram|)
  {
    var v := Victim(p, s.lines, s.pol);
    assert LinesNext(p, s)[v].words == s.ram[s.ld.value.addr.line];
  }

  lemma DrainKeepsTags<P>(s: State<P>)
    requires s.sb != []
    ensures |DrainLine(s)| == |s.lines| && forall i :: 0 <= i < |s.lines| ==> DrainLine(s)[i].valid == s.lines[i].valid && DrainLine(s)[i].tag == s.lines[i].tag
  {
    hide HitLine, Merge;
    HitLineValid(s.lines, s.sb[0].addr.line);
  }

  lemma HitLineValid(lines: seq<Line>, tag: nat)
    ensures HitLine(lines, tag).Some? ==> HitLine(lines, tag).value < |lines|
  {
  }

  lemma TagsStep<P>(p: Policy<P>, ram0: seq<Words>, s: State<P>, x: Inputs)
    requires Allowed(s, x) && TagsDiffer(s.lines, |s.ram|) && Refilling(p, s)
    ensures var s' := Next(p, s, x); TagsDiffer(s'.lines, |s'.ram|) && |s'.lines| == |s.lines|
  {
    hide MemoryNext, DrainLine, PolicyNext, ReadNext, LoadNext, OutNext, QueueNext, Refilling, Beat;
    MemorySize(s);
    if s.fill {
      RefillCount(p, s);
      if s.count < 8 {
        BeatKeepsTags(p, s);
      } else {
        LastBeat(p, ram0, s);
      }
    } else if Drains(s) {
      DrainKeepsTags(s);
    }
  }

  lemma RefillCount<P>(p: Policy<P>, s: State<P>)
    requires s.fill && Refilling(p, s)
    ensures 1 <= s.count <= 8
  {
  }

  /** A drain merges the same store into memory and into the line that caches it. */
  lemma DrainCoherent<P>(p: Policy<P>, ram0: seq<Words>, s: State<P>, i: nat)
    requires Written(ram0, s) && Ordered(s) && TagsDiffer(s.lines, |s.ram|) && Coherent(p, s) && Drains(s)
    requires i < |s.lines| && s.lines[i].valid
    ensures |DrainLine(s)| == |s.lines| && |MemoryNext(s)| == |s.ram|
    ensures DrainLine(s)[i].words == MemoryNext(s)[s.lines[i].tag]
  {
    hide Merge, WordAfter, HitLine;
    var tag := s.lines[i].tag;
    HitLineUnique(s.lines, |s.ram|, i);
    HitLineValid(s.lines, s.sb[0].addr.line);
    HitLineTag(s.lines, s.sb[0].addr.line);
    forall w: WordIndex
      ensures DrainLine(s)[i].words[w] == MemoryNext(s)[tag][w]
    {
      MemoryNextWord(ram0, s, tag, w);
    }
    MemorySize(s);
  }

  lemma HitLineTag(lines: seq<Line>, tag: nat)
    ensures HitLine(lines, tag).Some? ==> HitLine(lines, tag).value < |lines| && lines[HitLine(lines, tag).value].tag == tag
  {
  }

  lemma CoherentStep<P(!new)>(p: Policy<P>, ram0: seq<Words>, s: State<P>, x: Inputs)
    requires Allowed(s, x) && Inv(p, ram0, s)
    ensures Coherent(p, Next(p, s, x))
  {
    hide MemoryNext, DrainLine, ReadNext, LoadNext, OutNext, QueueNext, Beat, StartFill, HitLine, Victim, Written, Ordered, LoadSees,
         OutRight, TagsDiffer, PolicyNext;
    MemorySize(s);
    var s' := Next(p, s, x);
    if s.fill {
      NoDrainInFill(s);
      if s.count < 8 {
        BeatKeepsTags(p, s);
      } else {
        LastBeat(p, ram0, s);
      }
    } else {
      forall i | 0 <= i < |s'.lines| && s'.lines[i].valid && s'.lines[i].tag < |s'.ram|
        ensures s'.lines[i].words == s'.ram[s'.lines[i].tag]
      {
        if Drains(s) {
          DrainKeepsTags(s);
          DrainCoherent(p, ram0, s, i);
        } else {
          NoDrainKeepsMemory(s);
        }
      }
    }
  }

  lemma NoDrainInFill<P>(s: State<P>)
    requires s.fill
    ensures MemoryNext(s) == s.ram && !Drains(s)
  {
  }

  lemma NoDrainKeepsMemory<P>(s: State<P>)
    requires !Drains(s)
    ensures MemoryNext(s) == s.ram
  {
  }

  // ---- the refill controller ----

  /** A load that stalls stays where it is, squashed or not. */
  lemma StalledLoadStays<P>(s: State<P>, x: Inputs)
    requires s.ld.Some? && Stalls(s)
    ensures LoadNext(s, x).Some? && LoadNext(s, x).value == s.ld.value.(squashed := LoadNext(s, x).value.squashed)
    ensures s.ld.value.squashed ==> LoadNext(s, x).value.squashed
  {
    hide Stalls, HeadTaken;
  }

  lemma RefillingStep<P(!new)>(p: Policy<P>, ram0: seq<Words>, s: State<P>, x: Inputs)
    requires Allowed(s, x) && Inv(p, ram0, s)
    ensures Refilling(p, Next(p, s, x)) && Waiting(Next(p, s, x))
  {
    hide MemoryNext, DrainLine, LoadNext, OutNext, QueueNext, Beat, HitLine, Victim, Written, Ordered, LoadSees, OutRight, TagsDiffer,
         PolicyNext, Coherent, Search, CachedMiss, Stalls;
    var s' := Next(p, s, x);
    MemorySize(s);
    if s.fill {
      NoDrainInFill(s);
      FillStalls(s);
      StalledLoadStays(s, x);
      if s.count < 8 {
        BeatKeepsTags(p, s);
      }
    } else if StartFill(s) {
      StartFillMeans(s);
      StalledLoadStays(s, x);
      NoDrainKeepsMemory(s);
      VictimExists(p, s', s.lines);
    } else if StartUncached(s) {
      FillStalls(s);
      StalledLoadStays(s, x);
    }
  }

  lemma FillStalls<P>(s: State<P>)
    requires s.fill || StartUncached(s)
    ensures Stalls(s)
  {
  }

  lemma StartFillMeans<P>(s: State<P>)
    requires StartFill(s)
    ensures s.ld.Some? && s.Cacheable(s.ld.value.addr) && HitLine(s.lines, s.ld.value.addr.line).None? && !Drains(s) && Stalls(s)
    ensures !StartUncached(s)
  {
  }

  lemma VictimExists<P(!new)>(p: Policy<P>, s: State<P>, lines: seq<Line>)
    requires |lines| > 0 && forall q: P :: p.victim(q) < |lines|
    ensures Victim(p, lines, s.pol) < |lines|
  {
  }

  // ---- program order ----

  lemma KeepsOldest(sq: seq<Queued>, branch: nat)
    requires |sq| > 0 && sq[0].stamp <= branch
    ensures |KeepStamps(sq, branch)| >= 1
  {
    if |sq| > 1 && sq[|sq| - 1].stamp > branch {
      KeepsOldest(sq[..|sq| - 1], branch);
    }
  }

  /** What survives of the queue this cycle, before a new store joins it. */
  function Kept<P>(s: State<P>, x: Inputs): seq<Queued> {
    if x.flush then [] else if x.squash.Some? then KeepStamps(s.sq, x.squash.value) else s.sq
  }

  predicate Joins<P>(s: State<P>, x: Inputs) {
    !x.flush && HeadTaken(s, x) && x.head.value.HeadStore? && !x.head.value.IsMisaligned()
  }

  lemma KeptIsPrefix<P>(s: State<P>, x: Inputs)
    requires Allowed(s, x)
    ensures |Kept(s, x)| <= |s.sq| && Kept(s, x) == s.sq[..|Kept(s, x)|] && (Joins(s, x) ==> Kept(s, x) == s.sq)
    ensures x.commit ==> |Kept(s, x)| > 0 && Kept(s, x)[0] == s.sq[0]
  {
    hide HeadOutFree, KeepStamps;
    if x.commit && x.squash.Some? {
      KeepsOldest(s.sq, x.squash.value);
    }
  }

  lemma QueueShape<P>(s: State<P>, x: Inputs)
    requires Allowed(s, x)
    ensures QueueNext(s, x) == (if x.commit && |Kept(s, x)| > 0 then Kept(s, x)[1..] else Kept(s, x)) +
                               (if Joins(s, x) then [x.head.value.q] else [])
  {
    hide HeadTaken, KeepStamps, HeadOp.IsMisaligned;
  }

  lemma MoveFirst(a: seq<Queued>, b: seq<Queued>, c: seq<Queued>)
    requires |b| > 0
    ensures (a + [b[0]]) + (b[1..] + c) == a + b + c
  {
    assert b == [b[0]] + b[1..];
  }

  /** Commit only moves the boundary between committed and queued. */
  lemma OrderMoves<P>(p: Policy<P>, s: State<P>, x: Inputs)
    requires Allowed(s, x)
    ensures var s' := Next(p, s, x);
            && s'.committed + s'.sq == s.committed + Kept(s, x) + (if Joins(s, x) then [x.head.value.q] else [])
            && |Kept(s, x)| <= |s.sq| && Kept(s, x) == s.sq[..|Kept(s, x)|] && (Joins(s, x) ==> Kept(s, x) == s.sq)
  {
    hide MemoryNext, LinesNext, PolicyNext, ReadNext, LoadNext, OutNext, FillNext, StartUncached, DroppedNext, Kept, QueueNext, HeadOutFree, Search;
    KeptIsPrefix(s, x);
    QueueShape(s, x);
    if x.commit {
      MoveFirst(s.committed, Kept(s, x), if Joins(s, x) then [x.head.value.q] else []);
    }
  }

  lemma OrderedStep<P>(p: Policy<P>, s: State<P>, x: Inputs)
    requires Ordered(s) && Allowed(s, x)
    ensures Ordered(Next(p, s, x))
  {
    hide MemoryNext, LinesNext, PolicyNext, ReadNext, LoadNext, OutNext, HeadOutFree, FillNext, StartUncached, KeepStamps, QueueNext,
         Stamps, Increasing;
    OrderMoves(p, s, x);
    var s' := Next(p, s, x);
    var all, n := s.committed + s.sq, |s.committed + Kept(s, x)|;
    var kept := s.committed + Kept(s, x);
    assert kept == all[..n] && kept + [] == kept;
    IncreasingPrefix(all, s.nextStamp, n);
    DroppedIsRest(s, x);
    if Joins(s, x) {
      assert kept == all;
      IncreasingSnoc(all, s.nextStamp, x.head.value.q);
    } else {
      IncreasingWiden(kept, s.nextStamp, s'.nextStamp);
    }
    forall q | q in s'.committed + s'.sq
      ensures q.stamp !in s'.dropped && !Misaligned(q.size, q.addr.byte)
    {
      assert q in kept || (Joins(s, x) && q == x.head.value.q);
      assert q in kept ==> q in all;
    }
  }

  lemma IncreasingPrefix(qs: seq<Queued>, bound: nat, n: nat)
    requires Increasing(qs, bound) && n <= |qs|
    ensures Increasing(qs[..n], bound)
    ensures forall i, j :: 0 <= i < n <= j < |qs| ==> qs[i].stamp != qs[j].stamp
  {
  }

  lemma IncreasingSnoc(qs: seq<Queued>, bound: nat, q: Queued)
    requires Increasing(qs, bound) && q.stamp >= bound
    ensures Increasing(qs + [q], q.stamp + 1)
  {
  }

  lemma IncreasingWiden(qs: seq<Queued>, bound: nat, bound': nat)
    requires Increasing(qs, bound) && bound <= bound'
    ensures Increasing(qs, bound')
  {
  }

  /** What is dropped this cycle is exactly the part of the queue that is not kept. */
  lemma DroppedIsRest<P>(s: State<P>, x: Inputs)
    requires Increasing(s.committed + s.sq, s.nextStamp) && Kept(s, x) == s.sq[..|Kept(s, x)|]
    ensures forall q :: q in s.committed + Kept(s, x) && q.stamp !in s.dropped ==> q.stamp !in DroppedNext(s, x)
    ensures forall d :: d in DroppedNext(s, x) && d !in s.dropped ==> d < s.nextStamp
  {
    hide KeepStamps;
    var all, n, m := s.committed + s.sq, |s.committed| + |Kept(s, x)|, |s.committed|;
    var rest := s.sq[|Kept(s, x)|..];
    forall d | d in DroppedNext(s, x) && d !in s.dropped
      ensures exists j :: n <= j < |all| && all[j].stamp == d
    {
      assert d in Stamps(rest);
      var q :| q in rest && q.stamp == d;
      var k :| 0 <= k < |rest| && rest[k] == q;
      assert all[n + k] == q;
    }
    forall q | q in s.committed + Kept(s, x) && q.stamp !in s.dropped
      ensures q.stamp !in DroppedNext(s, x)
    {
      var i :| 0 <= i < |s.committed + Kept(s, x)| && (s.committed + Kept(s, x))[i] == q;
      assert all[i] == q && i < n;
    }
  }

  // ---- loads ----

  /** The memory word a list of queued stores leads to, extended by one store that does not touch the access. */
  lemma CommitLeavesLanes(ram0: seq<Words>, qs: seq<Queued>, q: Queued, a: Addr, m: Mask)
    requires a.line < |ram0| && !Touches(q.AsStore(), a, m)
    ensures AgreeOn(m, MemoryWord(ram0, qs, a), MemoryWord(ram0, qs + [q], a))
  {
    hide WordAfter, Touches, AsStores, Queued.AsStore;
    var w := MemoryWord(ram0, qs, a);
    CommitOne(qs, q);
    WordAfterAppend(ram0[a.line][a.word], AsStores(qs), [q.AsStore()], a);
    UntouchedLanes(w, [q.AsStore()], a, m);
  }

  /** Queued stores that do not touch the access leave its lanes as the committed ones made them. */
  lemma QueueLeavesLanes(ram0: seq<Words>, qs: seq<Queued>, more: seq<Queued>, a: Addr, m: Mask)
    requires a.line < |ram0| && forall q :: q in more ==> !Touches(q.AsStore(), a, m)
    ensures AgreeOn(m, MemoryWord(ram0, qs, a), MemoryWord(ram0, qs + more, a))
  {
    hide WordAfter, Touches, Queued.AsStore;
    AsStoresAppend(qs, more);
    WordAfterAppend(ram0[a.line][a.word], AsStores(qs), AsStores(more), a);
    forall k | 0 <= k < |more|
      ensures !Touches(AsStores(more)[k], a, m)
    {
      assert more[k] in more;
    }
    UntouchedLanes(MemoryWord(ram0, qs, a), AsStores(more), a, m);
  }

  lemma MissTouchesNothing(qs: seq<Queued>, a: Addr, m: Mask)
    requires Search(AsStores(qs), a, m).Miss?
    ensures forall q :: q in qs ==> !Touches(q.AsStore(), a, m)
  {
    hide Touches, Queued.AsStore;
    forall q | q in qs
      ensures !Touches(q.AsStore(), a, m)
    {
      var k :| 0 <= k < |qs| && qs[k] == q;
      assert AsStores(qs)[k] == q.AsStore();
    }
  }

  lemma AgreeTrans(m: Mask, a: Lanes, b: Lanes, c: Lanes)
    requires AgreeOn(m, a, b) && AgreeOn(m, b, c)
    ensures AgreeOn(m, a, c) && AgreeOn(m, b, a)
  {
  }

  /** The three ways the load stage can end up with a load that counts. */
  lemma LoadCases<P>(s: State<P>, x: Inputs)
    requires LoadNext(s, x).Some? && !LoadNext(s, x).value.squashed
    ensures !x.flush
    ensures s.ld.Some? ==> LoadNext(s, x) == s.ld
    ensures s.ld.None? ==>
              && x.head.Some? && HeadTaken(s, x) && x.head.value.HeadLoad? && !x.head.value.IsMisaligned() && x.squash.None?
              && LoadNext(s, x).value == IssuedLoad(s, x.head.value)
              && (s.Cacheable(x.head.value.addr) ==> QueueForward(s, x.head.value).Miss?)
  {
    hide Stalls, HeadOutFree, Search, OutFree;
  }

  /** A load already under way: a commit is of an older store that does not touch it. */
  lemma LoadStaysRight<P>(p: Policy<P>, ram0: seq<Words>, s: State<P>, x: Inputs)
    requires Allowed(s, x) && LoadSees(ram0, s) && Ordered(s) && |s.ram| == |ram0|
    requires s.ld.Some? && LoadNext(s, x) == s.ld && !s.ld.value.squashed && !x.flush
    ensures LoadSees(ram0, Next(p, s, x))
  {
    hide MemoryNext, LinesNext, PolicyNext, ReadNext, LoadNext, OutNext, HeadTaken, FillNext, StartUncached, DroppedNext, MemoryWord, Touches,
         Increasing, AgreeOn;
    MemorySize(s);
    QueueMembers(s, x);
    var s' := Next(p, s, x);
    var ld := s.ld.value;
    if s.Cacheable(ld.addr) && x.commit {
      assert s.sq[0] in s.sq;
      CommitLeavesLanes(ram0, s.committed, s.sq[0], ld.addr, ld.Mask());
      AgreeTrans(ld.Mask(), MemoryWord(ram0, s.committed, ld.addr), MemoryWord(ram0, s.committed + [s.sq[0]], ld.addr),
                 MemoryWord(ram0, s.committed + [s.sq[0]], ld.addr)) by { AgreeSelf(ld.Mask(), MemoryWord(ram0, s.committed + [s.sq[0]], ld.addr)); }
      AgreeTrans(ld.Mask(), MemoryWord(ram0, s.committed + [s.sq[0]], ld.addr), MemoryWord(ram0, s.committed, ld.addr),
                 MemoryWord(ram0, ld.older, ld.addr));
    }
  }

  lemma AgreeSelf(m: Mask, a: Lanes)
    ensures AgreeOn(m, a, a)
  {
  }

  /** Everything in the queue after a cycle was in it before, or just joined with a fresh stamp. */
  lemma QueueMembers<P>(s: State<P>, x: Inputs)
    requires Allowed(s, x)
    ensures forall q :: q in QueueNext(s, x) ==> q in s.sq || q.stamp >= s.nextStamp
    ensures HeadTaken(s, x) ==> x.head.value.Stamp() >= s.nextStamp
  {
    hide HeadOutFree, HeadOp.IsMisaligned, Search;
    var kept := KeepStamps(s.sq, if x.squash.Some? then x.squash.value else 0);
    assert forall q :: q in kept ==> q in s.sq;
  }

  /** A load that has just left the queue: nothing queued touches it. */
  lemma IssuedLoadRight<P>(p: Policy<P>, ram0: seq<Words>, s: State<P>, x: Inputs)
    requires Allowed(s, x) && Ordered(s) && |s.ram| == |ram0| && s.ld.None? && !x.flush && x.squash.None?
    requires x.head.Some? && HeadTaken(s, x) && x.head.value.HeadLoad? && !x.head.value.IsMisaligned()
    requires LoadNext(s, x) == Some(IssuedLoad(s, x.head.value))
    requires s.Cacheable(x.head.value.addr) ==> QueueForward(s, x.head.value).Miss?
    ensures LoadSees(ram0, Next(p, s, x))
  {
    hide MemoryNext, LinesNext, PolicyNext, ReadNext, LoadNext, OutNext, HeadTaken, FillNext, StartUncached, DroppedNext, MemoryWord, Touches,
         Increasing, AgreeOn, Search;
    MemorySize(s);
    var s' := Next(p, s, x);
    var op := x.head.value;
    var m := ByteMask(op.size, op.addr.byte);
    OrderMoves(p, s, x);
    assert s.committed + s.sq + [] == s.committed + s.sq;
    if s.Cacheable(op.addr) {
      MissTouchesNothing(s.sq, op.addr, m);
      assert forall q :: q in s'.sq ==> q in s.sq;
      QueueLeavesLanes(ram0, s'.committed, s'.sq, op.addr, m);
    }
  }

  lemma LoadSeesStep<P>(p: Policy<P>, ram0: seq<Words>, s: State<P>, x: Inputs)
    requires Allowed(s, x) && LoadSees(ram0, s) && Ordered(s) && |s.ram| == |ram0|
    ensures LoadSees(ram0, Next(p, s, x))
  {
    hide MemoryNext, LinesNext, PolicyNext, ReadNext, LoadNext, OutNext, QueueNext, HeadTaken, FillNext, StartUncached, DroppedNext,
         MemoryWord, Touches, Ordered, AgreeOn, Search;
    var ld' := LoadNext(s, x);
    if ld'.Some? && !ld'.value.squashed {
      LoadCases(s, x);
      if s.ld.Some? {
        LoadStaysRight(p, ram0, s, x);
      } else {
        IssuedLoadRight(p, ram0, s, x);
      }
    }
  }

  /** A recovery never drops a store older than a load it keeps. */
  lemma {:induction false} KeepsOlder(sq: seq<Queued>, branch: nat, k: nat)
    requires k < |sq| && sq[k].stamp <= branch
    ensures k < |KeepStamps(sq, branch)|
  {
    if sq[|sq| - 1].stamp > branch {
      KeepsOlder(sq[..|sq| - 1], branch, k);
    }
  }

  lemma KeptLength<P>(s: State<P>, x: Inputs, ld: Load)
    requires Ordered(s) && IsExact(ld, s.committed + s.sq) && !x.flush && (x.squash.Some? ==> ld.stamp <= x.squash.value)
    ensures |ld.older| <= |s.committed + Kept(s, x)|
  {
    hide KeepStamps, Increasing;
    var n, m := |ld.older|, |s.committed|;
    if n > m && x.squash.Some? {
      assert (s.committed + s.sq)[n - 1] == s.sq[n - 1 - m];
      KeepsOlder(s.sq, x.squash.value, n - 1 - m);
    }
  }

  /** A cycle keeps `older` exact for any load it does not squash. */
  lemma ExactStays<P>(p: Policy<P>, s: State<P>, x: Inputs, ld: Load)
    requires Allowed(s, x) && Ordered(s) && IsExact(ld, s.committed + s.sq) && ld.stamp < s.nextStamp
    requires !x.flush && (x.squash.Some? ==> ld.stamp <= x.squash.value)
    ensures IsExact(ld, Next(p, s, x).committed + Next(p, s, x).sq)
  {
    hide MemoryNext, LinesNext, PolicyNext, ReadNext, LoadNext, OutNext, QueueNext, HeadTaken, FillNext, StartUncached, DroppedNext,
         Search, KeepStamps;
    OrderMoves(p, s, x);
    QueueMembers(s, x);
    KeptLength(s, x, ld);
    var all, kept := s.committed + s.sq, s.committed + Kept(s, x);
    assert kept == all[..|kept|];
    assert ld.older == all[..|ld.older|] == kept[..|ld.older|];
  }

  /** A load that has just left the memory queue is younger than every store so far. */
  lemma ExactAtIssue<P>(p: Policy<P>, s: State<P>, x: Inputs)
    requires Allowed(s, x) && Ordered(s) && x.squash.None? && !x.flush && x.head.Some? && HeadTaken(s, x) && x.head.value.HeadLoad?
    ensures var s' := Next(p, s, x);
            s'.nextStamp == x.head.value.stamp + 1 && IsExact(IssuedLoad(s, x.head.value), s'.committed + s'.sq)
  {
    hide MemoryNext, LinesNext, PolicyNext, ReadNext, LoadNext, OutNext, QueueNext, HeadTaken, FillNext, StartUncached, DroppedNext,
         Search, KeepStamps;
    OrderMoves(p, s, x);
    assert s.committed + s.sq + [] == s.committed + s.sq;
  }

  lemma OlderExactStep<P>(p: Policy<P>, s: State<P>, x: Inputs)
    requires Allowed(s, x) && Ordered(s) && OlderExact(s) && (s.ld.Some? && !s.ld.value.squashed ==> s.ld.value.stamp < s.nextStamp)
    ensures OlderExact(Next(p, s, x))
  {
    hide Next, LoadNext, OutNext, IsExact, HeadTaken, Stalls, Ordered, HeadOutFree, HeadResult, Search, LoadResult, QueueValue;
    var ld', out' := LoadNext(s, x), OutNext(s, x);
    NextParts(p, s, x);
    if ld'.Some? && !ld'.value.squashed {
      LoadCases(s, x);
      if s.ld.Some? {
        KeptStamp(s, x);
        ExactStays(p, s, x, s.ld.value);
      } else {
        ExactAtIssue(p, s, x);
      }
    }
    if out'.Some? && out'.value.LoadDone? {
      OutCases(s, x);
      if LoadClaims(s, x) {
        ExactStays(p, s, x, s.ld.value);
      } else if HeadResult(s, x).Some? {
        ExactAtIssue(p, s, x);
      } else {
        ExactStays(p, s, x, s.out.value.load);
      }
    }
  }

  lemma NextParts<P>(p: Policy<P>, s: State<P>, x: Inputs)
    requires Allowed(s, x)
    ensures var s' := Next(p, s, x); s'.ld == LoadNext(s, x) && s'.out == OutNext(s, x) && s.nextStamp <= s'.nextStamp
  {
    hide LoadNext, OutNext, HeadTaken;
    QueueMembers(s, x);
  }

  lemma KeptStamp<P>(s: State<P>, x: Inputs)
    requires LoadNext(s, x) == s.ld && s.ld.Some? && !s.ld.value.squashed
    ensures !x.flush && (x.squash.Some? ==> s.ld.value.stamp <= x.squash.value)
  {
    hide Stalls, HeadTaken, OutFree;
  }

  /** A finished load in the output buffer came from the load stage, from the store queue, or was there already. */
  lemma OutCases<P>(s: State<P>, x: Inputs)
    requires OutNext(s, x).Some? && OutNext(s, x).value.LoadDone?
    ensures !x.flush
    ensures if LoadClaims(s, x) then
              && s.ld.Some? && OutNext(s, x) == Some(LoadDone(s.ld.value.stamp, LoadResult(s, x), s.ld.value))
              && (x.squash.Some? ==> s.ld.value.stamp <= x.squash.value)
            else if HeadResult(s, x).Some? then
              && x.head.Some? && HeadTaken(s, x) && x.squash.None? && x.head.value.HeadLoad? && !x.head.value.IsMisaligned()
              && s.Cacheable(x.head.value.addr) && QueueForward(s, x.head.value).Hit?
              && OutNext(s, x) == Some(LoadDone(x.head.value.stamp, QueueValue(s, x.head.value), IssuedLoad(s, x.head.value)))
            else OutNext(s, x) == s.out && (x.squash.Some? ==> s.out.value.stamp <= x.squash.value)
  {
    hide Stalls, OutFree, HeadOutFree, Search, LoadResult, QueueValue;
  }

  // ---- results ----

  /** What the load stage finally reads: buffered store bytes, or the cache line, agree with program order. */
  lemma LoadResultRight<P(!new)>(p: Policy<P>, ram0: seq<Words>, s: State<P>, x: Inputs)
    requires Inv(p, ram0, s) && LoadDoneNow(s) && !s.ld.value.squashed
    ensures RightValue(ram0, LoadResult(s, x), s.ld.value)
  {
    hide WordAfter, Search, Merge, AsStores, LoadValue, FormatLoad, Ordered, OutRight, Refilling, TagsDiffer, HitLine, Victim, AgreeOn, ByteMask;
    var ld := s.ld.value;
    var a, m := ld.addr, ld.Mask();
    if a.line < |ram0| {
      var w := s.ram[a.line][a.word];
      var now := MemoryWord(ram0, s.committed, a);
      WordAfterSameWord(ram0[a.line][a.word], s.writes, Addr(a.line, a.word, 0), a);
      WordAfterAppend(ram0[a.line][a.word], s.writes, s.sb, a);
      assert now == WordAfter(w, s.sb, a);
      SearchIsRight(w, s.sb, a, m);
      NotStalledMeans(s);
      var source := if Forwarded(s).Hit? then Forwarded(s).word else w;
      AgreeTrans(m, source, now, MemoryWord(ram0, ld.older, a));
      LoadReadsItsLanes(source, MemoryWord(ram0, ld.older, a), ld.size, ld.unsigned, a.byte);
      FormattersAgree(source, ld.size, ld.unsigned, a.byte);
      if !Forwarded(s).Hit? {
        HitLineHolds(p, s);
      }
    }
  }

  /** A load that does not stall was answered by the store buffer, or hits in the cache with nothing buffered
      in its way. */
  lemma NotStalledMeans<P>(s: State<P>)
    requires LoadDoneNow(s) && s.Cacheable(s.ld.value.addr) && Waiting(s)
    ensures !s.fill && (Forwarded(s).Hit? || (Forwarded(s).Miss? && LoadHits(s)))
  {
    hide Search, HitLine;
  }

  /** A hitting line is memory's. */
  lemma HitLineHolds<P>(p: Policy<P>, s: State<P>)
    requires Coherent(p, s) && !s.fill && LoadHits(s)
    ensures var l := HitLine(s.lines, s.ld.value.addr.line);
            l.value < |s.lines| && s.lines[l.value].words == s.ram[s.ld.value.addr.line]
  {
    HitLineTag(s.lines, s.ld.value.addr.line);
  }

  /** What the store queue forwards is what program order says, too. */
  lemma QueueValueRight<P>(ram0: seq<Words>, s: State<P>, op: HeadOp)
    requires op.HeadLoad? && !op.IsMisaligned() && Ordered(s) && |s.ram| == |ram0|
    requires s.Cacheable(op.addr) && QueueForward(s, op).Hit?
    ensures RightValue(ram0, QueueValue(s, op), IssuedLoad(s, op))
  {
    hide WordAfter, Merge, LoadValue, ForwardValue, Spread, AgreeOn, ByteMask, Increasing, Touches, YoungestOverlap;
    var a, m := op.addr, ByteMask(op.size, op.addr.byte);
    var ss := AsStores(s.sq);
    var j := YoungestOverlap(ss, a, m);
    var q := s.sq[j];
    assert q in s.committed + s.sq;
    var w := MemoryWord(ram0, s.committed, a);
    AsStoresAppend(s.committed, s.sq);
    WordAfterAppend(ram0[a.line][a.word], AsStores(s.committed), ss, a);
    SearchIsRight(w, ss, a, m);
    LoadReadsItsLanes(Spread(ss[j].data, ss[j].mask), WordAfter(w, ss, a), op.size, op.unsigned, a.byte);
    ForwardIsMerge(w, q.data, q.size, q.addr.byte, op.size, op.unsigned, a.byte);
    CoveringMerge(w, ss[j], a, m) by { OverlapTouches(ss, a, m); }
    AgreeTrans(m, Spread(ss[j].data, ss[j].mask), Merge(w, q.data, ss[j].mask), Merge(w, q.data, ss[j].mask)) by {
      AgreeSelf(m, Merge(w, q.data, ss[j].mask));
    }
    LoadReadsItsLanes(Merge(w, q.data, ss[j].mask), Spread(ss[j].data, ss[j].mask), op.size, op.unsigned, a.byte);
  }

  lemma OverlapTouches(ss: seq<Store>, a: Addr, m: Mask)
    requires YoungestOverlap(ss, a, m) >= 0
    ensures Touches(ss[YoungestOverlap(ss, a, m)], a, m)
  {
  }

  lemma OutRightStep<P(!new)>(p: Policy<P>, ram0: seq<Words>, s: State<P>, x: Inputs)
    requires Allowed(s, x) && Inv(p, ram0, s)
    ensures OutRight(ram0, Next(p, s, x))
  {
    hide MemoryNext, LinesNext, PolicyNext, ReadNext, LoadNext, LoadResult, QueueNext, FillNext, StartUncached, DroppedNext, RightValue,
         Ordered, LoadSees, Coherent, Refilling, TagsDiffer, Stalls, QueueValue, Search, HeadOp.IsMisaligned;
    if LoadClaims(s, x) {
      LoadResultRight(p, ram0, s, x);
    } else if HeadTaken(s, x) && x.head.value.HeadLoad? && !x.head.value.IsMisaligned() &&
              s.Cacheable(x.head.value.addr) && QueueForward(s, x.head.value).Hit? {
      QueueValueRight(ram0, s, x.head.value);
    }
  }

  /** Every step keeps the invariant. */
  lemma NextKeepsInv<P(!new)>(p: Policy<P>, ram0: seq<Words>, s: State<P>, x: Inputs)
    requires Allowed(s, x) && Inv(p, ram0, s)
    ensures Inv(p, ram0, Next(p, s, x))
  {
    hide Next, Written, Coherent, Refilling, Waiting, Ordered, OlderExact, LoadSees, OutRight, TagsDiffer;
    WrittenStep(p, ram0, s, x);
    TagsStep(p, ram0, s, x);
    CoherentStep(p, ram0, s, x);
    RefillingStep(p, ram0, s, x);
    OrderedStep(p, s, x);
    WrittenSize(ram0, s);
    LoadSeesStep(p, ram0, s, x);
    OlderExactStep(p, s, x) by { LoadStamp(ram0, s); }
    OutRightStep(p, ram0, s, x);
  }

  lemma LoadStamp<P>(ram0: seq<Words>, s: State<P>)
    requires LoadSees(ram0, s)
    ensures s.ld.Some? && !s.ld.value.squashed ==> s.ld.value.stamp < s.nextStamp
  {
  }

  lemma WrittenSize<P>(ram0: seq<Words>, s: State<P>)
    requires Written(ram0, s)
    ensures |s.ram| == |ram0|
  {
  }
}
