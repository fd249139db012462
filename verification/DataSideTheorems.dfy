/** The main results about the data side, over whole runs. */
module DataSideTheorems {
  import opened Bytes
  import opened StoreBuffer
  import opened DataSide
  import opened DataSideInvariant

  ghost predicate Reset<P(!new)>(p: Policy<P>, s: State<P>) {
    && Fits(p, s) && s.sq == [] && s.ld.None? && s.out.None? && s.sb == [] && !s.fill && !s.uncachedWait
    && (forall i :: 0 <= i < |s.lines| ==> !s.lines[i].valid)
    && s.committed == [] && s.writes == [] && s.dropped == {}
  }

  lemma ResetHolds<P(!new)>(p: Policy<P>, s: State<P>)
    requires Reset(p, s)
    ensures Inv(p, s.ram, s)
  {
  }

  ghost predicate IsRun<P(!new)>(p: Policy<P>, states: seq<State<P>>, inputs: seq<Inputs>) {
    && |states| == |inputs| + 1 && Reset(p, states[0])
    && forall i :: 0 <= i < |inputs| ==> Allowed(states[i], inputs[i]) && states[i + 1] == Next(p, states[i], inputs[i])
  }

  lemma {:induction false} Reachable<P(!new)>(p: Policy<P>, states: seq<State<P>>, inputs: seq<Inputs>, n: nat)
    requires IsRun(p, states, inputs) && n < |states|
    ensures Inv(p, states[0].ram, states[n])
  {
    hide Inv, Allowed, Next;
    if n == 0 {
      ResetHolds(p, states[0]);
    } else {
      Reachable(p, states, inputs, n - 1);
      NextKeepsInv(p, states[0].ram, states[n - 1], inputs[n - 1]);
    }
  }

  // ---- loads ----

  /** Whatever answered it (store queue, store buffer, cache or memory), a finished cacheable aligned load
      carries, byte by byte, the byte of the youngest store older than itself to that address, or initial
      memory's, zero- or sign-extended as a number. The older stores are all the surviving ones with a smaller stamp, committed or queued. */
  lemma LoadsSeeProgramOrder<P(!new)>(p: Policy<P>, states: seq<State<P>>, inputs: seq<Inputs>, n: nat)
    requires IsRun(p, states, inputs) && n < |states|
    requires states[n].out.Some? && states[n].out.value.LoadDone?
    requires var ld := states[n].out.value.load; ld.addr.line < |states[0].ram| && !Misaligned(ld.size, ld.addr.byte)
    ensures var (s, r, ram0) := (states[n], states[n].out.value, states[0].ram);
            var a, older := r.load.addr, AsStores(r.load.older);
            var w := WordAfter(ram0[a.line][a.word], older, a);
            && r.value == LoadValue(w, r.load.size, r.load.unsigned, a.byte)
            && Reads(Number(r.value, WordSize, 0), w, r.load.size, r.load.unsigned, a.byte)
            && (forall lane :: 0 <= lane < 4 ==>
                  var j := YoungestByte(older, a, lane);
                  w[lane] == if j >= 0 then Spread(older[j].data, older[j].mask)[lane] else ram0[a.line][a.word][lane])
            && IsOlderPart(r.load.older, s.committed + s.sq, r.stamp)
  {
    hide IsRun, WordAfter, YoungestByte, Spread, LoadValue, Number, Reads, Written, Coherent, Refilling, Waiting, LoadSees, TagsDiffer, IsOlderPart;
    Reachable(p, states, inputs, n);
    var a, older := states[n].out.value.load.addr, AsStores(states[n].out.value.load.older);
    forall lane | 0 <= lane < 4
      ensures var j := YoungestByte(older, a, lane);
              WordAfter(states[0].ram[a.line][a.word], older, a)[lane] ==
              if j >= 0 then Spread(older[j].data, older[j].mask)[lane] else states[0].ram[a.line][a.word][lane]
    {
      ByteOfYoungest(states[0].ram[a.line][a.word], older, a, lane);
    }
    ExactIsOlderPart(states[n].out.value.load, states[n].committed + states[n].sq);
    var r := states[n].out.value;
    LoadMeans(WordAfter(states[0].ram[a.line][a.word], older, a), r.load.size, r.load.unsigned, a.byte, Number(r.value, WordSize, 0));
  }

  /** `older` is exactly the part of `all` with a smaller stamp, and it comes first. */
  ghost predicate IsOlderPart(older: seq<Queued>, all: seq<Queued>, stamp: nat) {
    older <= all && forall q :: q in all ==> (q in older <==> q.stamp < stamp)
  }

  lemma ExactIsOlderPart(ld: Load, all: seq<Queued>)
    requires IsExact(ld, all)
    ensures IsOlderPart(ld.older, all, ld.stamp)
  {
    var k := |ld.older|;
    forall q | q in all
      ensures q in ld.older <==> q.stamp < ld.stamp
    {
      var i :| 0 <= i < |all| && all[i] == q;
      if q in ld.older {
        var j :| 0 <= j < k && ld.older[j] == q;
        assert all[j] == q;
      }
      if i < k {
        assert ld.older[i] == q;
      }
    }
  }

  /** The same of a load that is still under way: what it will be measured against is already exact. */
  lemma OlderStoresAreExact<P(!new)>(p: Policy<P>, states: seq<State<P>>, inputs: seq<Inputs>, n: nat)
    requires IsRun(p, states, inputs) && n < |states|
    requires states[n].ld.Some? && !states[n].ld.value.squashed
    ensures var (s, ld) := (states[n], states[n].ld.value); IsOlderPart(ld.older, s.committed + s.sq, ld.stamp)
  {
    hide IsRun, Written, Coherent, Refilling, Waiting, Ordered, LoadSees, OutRight, TagsDiffer, IsExact, IsOlderPart;
    Reachable(p, states, inputs, n);
    ExactIsOlderPart(states[n].ld.value, states[n].committed + states[n].sq);
  }

  // ---- stores ----

  /** What has been written to memory and devices, plus what is buffered, is exactly the committed stores, in
      program order and once each. */
  lemma WritesAreCommits<P(!new)>(p: Policy<P>, states: seq<State<P>>, inputs: seq<Inputs>, n: nat)
    requires IsRun(p, states, inputs) && n < |states|
    ensures var s := states[n];
            && s.writes + s.sb == AsStores(s.committed)
            && (forall i, j :: 0 <= i < j < |s.committed| ==> s.committed[i].stamp < s.committed[j].stamp)
            && (forall q :: q in s.committed ==> q.stamp !in s.dropped)
            && (forall l: nat, w: WordIndex :: l < |s.ram| && l < |states[0].ram| ==>
                  s.ram[l][w] == WordAfter(states[0].ram[l][w], s.writes, Addr(l, w, 0)))
  {
    hide IsRun, Coherent, Refilling, Waiting, OlderExact, LoadSees, OutRight, TagsDiffer, WordAfter;
    Reachable(p, states, inputs, n);
    var s := states[n];
    forall i, j | 0 <= i < j < |s.committed|
      ensures s.committed[i].stamp < s.committed[j].stamp
    {
      assert (s.committed + s.sq)[i] == s.committed[i] && (s.committed + s.sq)[j] == s.committed[j];
    }
  }

  /** What is committed, written or dropped stays so. */
  lemma {:induction false} HistoryGrows<P(!new)>(p: Policy<P>, states: seq<State<P>>, inputs: seq<Inputs>, m: nat, n: nat)
    requires IsRun(p, states, inputs) && m <= n < |states|
    ensures states[m].committed <= states[n].committed && states[m].writes <= states[n].writes && states[m].dropped <= states[n].dropped
  {
    hide MemoryNext, LinesNext, PolicyNext, ReadNext, LoadNext, OutNext, QueueNext, FillNext, Reset, Stamps, KeepStamps, Drains, StartUncached;
    if m < n {
      HistoryGrows(p, states, inputs, m, n - 1);
      assert states[n] == Next(p, states[n - 1], inputs[n - 1]);
    }
  }

  /** This cycle takes the store back: everything is flushed, or it is younger than the recovering branch. */
  predicate TakesBack(x: Inputs, stamp: nat) {
    x.flush || (x.squash.Some? && stamp > x.squash.value)
  }

  lemma {:induction false} KeepsUpTo(sq: seq<Queued>, bound: nat, branch: nat, k: nat)
    requires Increasing(sq, bound) && k < |sq|
    ensures k < |KeepStamps(sq, branch)| <==> sq[k].stamp <= branch
  {
    if sq[|sq| - 1].stamp > branch && k < |sq| - 1 {
      KeepsUpTo(sq[..|sq| - 1], bound, branch, k);
    }
  }

  /** The queue is what is kept of it, without a store that commits, and perhaps a new one. */
  lemma QueueSplit<P>(s: State<P>, x: Inputs, k: nat)
    requires Allowed(s, x) && Increasing(s.sq, s.nextStamp) && k < |s.sq|
    ensures if TakesBack(x, s.sq[k].stamp) then s.sq[k].stamp in DroppedNext(s, x)
            else s.sq[k] in QueueNext(s, x) || (k == 0 && x.commit)
  {
    hide HeadTaken, KeepStamps;
    if x.squash.Some? && !x.flush {
      var kept := KeepStamps(s.sq, x.squash.value);
      KeepsUpTo(s.sq, s.nextStamp, x.squash.value, k);
      if k >= |kept| {
        assert s.sq[|kept|..][k - |kept|] == s.sq[k];
      } else {
        StaysQueued(s, x, kept, k);
      }
    } else if !x.flush {
      StaysQueued(s, x, s.sq, k);
    }
  }

  lemma StaysQueued<P>(s: State<P>, x: Inputs, kept: seq<Queued>, k: nat)
    requires kept == Kept(s, x) && !x.flush && k < |kept|
    ensures kept[k] in QueueNext(s, x) || (k == 0 && x.commit)
  {
    hide HeadTaken, KeepStamps;
    var popped := if x.commit && |kept| > 0 then kept[1..] else kept;
    if k > 0 || !x.commit {
      var at := if x.commit then k - 1 else k;
      assert popped[at] == kept[k] && popped <= QueueNext(s, x);
      assert QueueNext(s, x)[at] == kept[k];
    }
  }

  lemma QueueSorted<P>(s: State<P>)
    requires Ordered(s)
    ensures Increasing(s.sq, s.nextStamp)
  {
    forall i, j | 0 <= i < j < |s.sq|
      ensures s.sq[i].stamp < s.sq[j].stamp
    {
      assert (s.committed + s.sq)[|s.committed| + i] == s.sq[i] && (s.committed + s.sq)[|s.committed| + j] == s.sq[j];
    }
    forall i | 0 <= i < |s.sq|
      ensures s.sq[i].stamp < s.nextStamp
    {
      assert (s.committed + s.sq)[|s.committed| + i] == s.sq[i];
    }
  }

  lemma StoreParts<P>(p: Policy<P>, s: State<P>, x: Inputs)
    requires Allowed(s, x)
    ensures var s' := Next(p, s, x);
            && s'.sq == QueueNext(s, x) && s'.dropped == DroppedNext(s, x)
            && s'.committed == if x.commit then s.committed + [s.sq[0]] else s.committed
  {
    hide MemoryNext, LinesNext, PolicyNext, ReadNext, LoadNext, OutNext, QueueNext, DroppedNext, FillNext, Drains, StartUncached, HeadTaken;
  }

  /** What a cycle does to a store in the queue: it drops it exactly if it takes it back, and else leaves it there or
      commits it. */
  lemma QueuedGoes<P(!new)>(p: Policy<P>, states: seq<State<P>>, inputs: seq<Inputs>, n: nat, k: nat)
    requires IsRun(p, states, inputs) && n < |inputs| && k < |states[n].sq|
    ensures var (q, s') := (states[n].sq[k], states[n + 1]);
            if TakesBack(inputs[n], q.stamp) then q.stamp in s'.dropped && q !in s'.committed + s'.sq
            else q.stamp !in s'.dropped && (q in s'.sq || (k == 0 && inputs[n].commit && s'.committed == states[n].committed + [q]))
  {
    hide Coherent, Refilling, Waiting, OlderExact, LoadSees, OutRight, TagsDiffer, Written, Ordered, Reset, TakesBack, Next, Allowed, DroppedNext, QueueNext;
    Reachable(p, states, inputs, n);
    Reachable(p, states, inputs, n + 1);
    QueuedStep(p, states[n], inputs[n], k);
  }

  lemma QueuedStep<P>(p: Policy<P>, s: State<P>, x: Inputs, k: nat)
    requires Allowed(s, x) && Ordered(s) && Ordered(Next(p, s, x)) && k < |s.sq|
    ensures var (q, s') := (s.sq[k], Next(p, s, x));
            if TakesBack(x, q.stamp) then q.stamp in s'.dropped && q !in s'.committed + s'.sq
            else q.stamp !in s'.dropped && (q in s'.sq || (k == 0 && x.commit && s'.committed == s.committed + [q]))
  {
    hide TakesBack, Next, Increasing, DroppedNext, QueueNext, HeadTaken;
    QueueSorted(s);
    StoreParts(p, s, x);
    QueueSplit(s, x, k);
  }

  /** A dropped store is never committed and never reaches memory, however long the run goes on: every later write is
      that of another store. */
  lemma DroppedNeverWritten<P(!new)>(p: Policy<P>, states: seq<State<P>>, inputs: seq<Inputs>, m: nat, n: nat, stamp: nat)
    requires IsRun(p, states, inputs) && m <= n < |states| && stamp in states[m].dropped
    ensures forall q :: q in states[n].committed ==> q.stamp != stamp
    ensures |states[n].writes| <= |states[n].committed|
    ensures forall i :: 0 <= i < |states[n].writes| ==> states[n].writes[i] == states[n].committed[i].AsStore()
  {
    hide IsRun, Written, Coherent, Refilling, Waiting, OlderExact, LoadSees, OutRight, TagsDiffer, Ordered, Increasing;
    HistoryGrows(p, states, inputs, m, n);
    WritesAreCommits(p, states, inputs, n);
    var s := states[n];
    forall i | 0 <= i < |s.writes|
      ensures s.writes[i] == s.committed[i].AsStore()
    {
      assert (s.writes + s.sb)[i] == s.writes[i];
    }
  }

  /** Nor, then, is a store that a flush or an older branch's recovery takes back. */
  lemma SquashedNeverWritten<P(!new)>(p: Policy<P>, states: seq<State<P>>, inputs: seq<Inputs>, m: nat, n: nat, k: nat)
    requires IsRun(p, states, inputs) && m < n < |states| && m < |inputs| && k < |states[m].sq|
    requires TakesBack(inputs[m], states[m].sq[k].stamp)
    ensures forall q :: q in states[n].committed ==> q.stamp != states[m].sq[k].stamp
    ensures |states[n].writes| <= |states[n].committed|
    ensures forall i :: 0 <= i < |states[n].writes| ==> states[n].writes[i] == states[n].committed[i].AsStore()
  {
    hide IsRun, TakesBack;
    QueuedGoes(p, states, inputs, m, k);
    DroppedNeverWritten(p, states, inputs, m + 1, n, states[m].sq[k].stamp);
  }

  // ---- the cache ----

  /** In every reachable cycle: no two valid lines share a tag, and every valid line that is not being refilled
      equals memory. */
  lemma CacheIsCoherent<P(!new)>(p: Policy<P>, states: seq<State<P>>, inputs: seq<Inputs>, n: nat)
    requires IsRun(p, states, inputs) && n < |states|
    ensures var s := states[n];
            && (forall i, j :: 0 <= i < j < |s.lines| && s.lines[i].valid && s.lines[j].valid ==> s.lines[i].tag != s.lines[j].tag)
            && (forall i :: 0 <= i < |s.lines| && s.lines[i].valid ==> s.lines[i].tag < |s.ram|)
            && (forall i :: 0 <= i < |s.lines| && s.lines[i].valid && !(s.fill && i == Victim(p, s.lines, s.pol)) ==>
                  s.lines[i].words == s.ram[s.lines[i].tag])
  {
    hide IsRun, Refilling, Waiting, OlderExact, LoadSees, OutRight, Ordered, Written, Victim;
    Reachable(p, states, inputs, n);
  }

  /** While a refill runs: the victim is the same line on every beat, the words already written into it are
      memory's, and nothing can hit it under its old tag, because the only lookup that counts is the waiting
      load's and that misses, and no store drains. */
  lemma RefillIsSafe<P(!new)>(p: Policy<P>, states: seq<State<P>>, inputs: seq<Inputs>, n: nat)
    requires IsRun(p, states, inputs) && n < |inputs| && states[n].fill
    ensures var s := states[n];
            var v := Victim(p, s.lines, s.pol);
            && v < |s.lines| && s.ld.Some? && s.Cacheable(s.ld.value.addr) && 1 <= s.count <= 8
            && !LoadHits(s) && !Drains(s) && Stalls(s)
            && (forall k :: 0 <= k < s.count - 1 ==> s.lines[v].words[k] == s.ram[s.ld.value.addr.line][k])
            && (states[n + 1].fill ==>
                  && Victim(p, states[n + 1].lines, states[n + 1].pol) == v && states[n + 1].count == s.count + 1
                  && states[n + 1].ld.Some? && states[n + 1].ld.value.addr == s.ld.value.addr)
            && (!states[n + 1].fill ==>
                  states[n + 1].lines[v] == Line(true, s.ld.value.addr.line, s.ram[s.ld.value.addr.line]))
  {
    hide Waiting, OlderExact, LoadSees, OutRight, Ordered, Written, Victim, LoadNext, OutNext, QueueNext, MemoryNext, ReadNext, Coherent,
         HitLine, Beat, PolicyNext, CachedMiss, Search, TagsDiffer, Reset, StartUncached, Drains, Stalls;
    Reachable(p, states, inputs, n);
    var s := states[n];
    assert states[n + 1] == Next(p, s, inputs[n]);
    NoDrainInFill(s);
    FillStalls(s);
    StalledLoadStays(s, inputs[n]);
    if s.count < 8 {
      BeatKeepsTags(p, s);
    } else {
      LastBeat(p, states[0].ram, s);
    }
  }
}
