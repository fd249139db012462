/** The data side never hangs: buffered stores are written, and loads finish. */
module DataSideLiveness {
  import opened Prelude
  import opened Bytes
  import opened StoreBuffer
  import opened DataSide
  import opened DataSideInvariant
  import opened DataSideTheorems

  // ---- sizes ----

  ghost predicate Sized<P>(s: State<P>) {
    |s.sb| <= STOREBUF_DEPTH && |s.sq| <= SQ_ENTRIES
  }

  lemma SizedStep<P>(p: Policy<P>, s: State<P>, x: Inputs)
    requires Allowed(s, x) && Sized(s)
    ensures Sized(Next(p, s, x))
  {
    hide MemoryNext, LinesNext, PolicyNext, ReadNext, LoadNext, OutNext, FillNext, StartUncached, DroppedNext, Search, HeadOp.IsMisaligned, HeadOutFree;
    var kept := KeepStamps(s.sq, if x.squash.Some? then x.squash.value else 0);
  }

  lemma {:induction false} AlwaysSized<P(!new)>(p: Policy<P>, states: seq<State<P>>, inputs: seq<Inputs>, n: nat)
    requires IsRun(p, states, inputs) && n < |states|
    ensures Sized(states[n])
  {
    hide Allowed, Next;
    if n > 0 {
      AlwaysSized(p, states, inputs, n - 1);
      SizedStep(p, states[n - 1], inputs[n - 1]);
    }
  }

  // ---- stores ----

  /** The cycles until the store buffer may drain: what is left of a refill or of an uncached read. */
  function Busy<P>(s: State<P>): nat {
    if s.fill then (if s.count < 9 then 9 - s.count else 0) else if s.uncachedWait then 1 else 0
  }

  /** While something is buffered nothing new starts; a busy cycle passes, any other writes the oldest store. */
  lemma DrainStep<P>(p: Policy<P>, s: State<P>, x: Inputs)
    requires Allowed(s, x) && Refilling(p, s) && s.sb != []
    ensures var s' := Next(p, s, x);
            if Busy(s) > 0 then Busy(s') == Busy(s) - 1 && s'.writes == s.writes && s.sb <= s'.sb
            else Busy(s') == 0 && s'.writes == s.writes + [s.sb[0]] && s.sb[1..] <= s'.sb
  {
    hide MemoryNext, LinesNext, PolicyNext, ReadNext, LoadNext, OutNext, QueueNext, DroppedNext, Search, HeadTaken, HitLine, CachedMiss, UncachedLoad;
  }

  lemma {:induction false} Drained<P(!new)>(p: Policy<P>, states: seq<State<P>>, inputs: seq<Inputs>, n: nat, j: nat)
    requires IsRun(p, states, inputs) && n + j < |states| && states[n].sb != [] && j <= Busy(states[n]) + |states[n].sb|
    ensures var (s, s', k) := (states[n], states[n + j], if j > Busy(states[n]) then j - Busy(states[n]) else 0);
            s'.writes == s.writes + s.sb[..k] && s.sb[k..] <= s'.sb && Busy(s') == if j < Busy(s) then Busy(s) - j else 0
    decreases j
  {
    hide Allowed, Next, Busy, Reset;
    var s := states[n];
    if j == 0 {
      assert s.writes + s.sb[..0] == s.writes && s.sb[0..] == s.sb;
    } else {
      Drained(p, states, inputs, n, j - 1);
      RefillingAlways(p, states, inputs, n + j - 1);
      var k := if j - 1 > Busy(s) then j - 1 - Busy(s) else 0;
      var t := states[n + j - 1];
      assert t.sb[0] == s.sb[k..][0] == s.sb[k];
      DrainStep(p, t, inputs[n + j - 1]);
      assert s.sb[..k] + [s.sb[k]] == s.sb[..k + 1];
    }
  }

  lemma RefillingAlways<P(!new)>(p: Policy<P>, states: seq<State<P>>, inputs: seq<Inputs>, n: nat)
    requires IsRun(p, states, inputs) && n < |states|
    ensures Refilling(p, states[n])
  {
    hide IsRun, Written, TagsDiffer, Coherent, Refilling, Waiting, Ordered, OlderExact, LoadSees, OutRight;
    Reachable(p, states, inputs, n);
  }

  /** Every buffered store is written, and when: store i of the buffer in the i-th cycle after the buffer may drain,
      which is at most 8 cycles away, whatever the loads, the commits and the recoveries do meanwhile. */
  lemma StoresAreWritten<P(!new)>(p: Policy<P>, states: seq<State<P>>, inputs: seq<Inputs>, n: nat, i: nat, m: nat)
    requires IsRun(p, states, inputs) && n <= m < |states| && i < |states[n].sb|
    ensures Busy(states[n]) <= 8 && |states[n].sb| <= STOREBUF_DEPTH
    ensures var (s, s') := (states[n], states[m]);
            if m > n + Busy(s) + i then |s.writes| + i < |s'.writes| && s'.writes[|s.writes| + i] == s.sb[i]
            else |s'.writes| <= |s.writes| + i
  {
    hide IsRun, Busy, Refilling;
    var s := states[n];
    RefillingAlways(p, states, inputs, n);
    BusyBound(p, s);
    AlwaysSized(p, states, inputs, n);
    if m > n + Busy(s) + i {
      var e := Busy(s) + i + 1;
      Drained(p, states, inputs, n, e);
      HistoryGrows(p, states, inputs, n + e, m);
      assert states[n + e].writes[|s.writes| + i] == s.sb[i];
    } else {
      Drained(p, states, inputs, n, m - n);
    }
  }

  lemma BusyBound<P>(p: Policy<P>, s: State<P>)
    requires Refilling(p, s)
    ensures Busy(s) <= 8
  {
  }

  // ---- loads ----

  /** How many cycles the load in the load stage may still stall if nothing commits. */
  function Rank<P>(s: State<P>): nat
    requires s.ld.Some?
  {
    var n := |s.sb|;
    if s.fill then (if s.count < 9 then 9 - s.count else 0) + n
    else if !s.Cacheable(s.ld.value.addr) then (if !s.uncachedWait then n + 3 else if n == 0 then 1 else n + 4)
    else if LoadHits(s) then n
    else n + 10
  }

  /** The load goes on stalling for this cycle. */
  predicate Stays<P>(s: State<P>, x: Inputs) {
    s.ld.Some? && LoadNext(s, x).Some?
  }

  /** Nothing but the output buffer holds up a load that is done. */
  predicate MayLeave<P>(s: State<P>, x: Inputs) {
    s.ld.Some? && (s.ld.value.squashed || OutFree(s, x))
  }

  lemma StaysMeans<P>(s: State<P>, x: Inputs)
    requires Stays(s, x) && MayLeave(s, x)
    ensures Stalls(s) && LoadNext(s, x).value.addr == s.ld.value.addr && LoadNext(s, x).value.stamp == s.ld.value.stamp
  {
    hide Stalls, HeadTaken;
  }

  /** Each cycle the load stalls lowers its rank; only a commit can raise it. */
  lemma RankFalls<P(!new)>(p: Policy<P>, ram0: seq<Words>, s: State<P>, x: Inputs)
    requires Inv(p, ram0, s) && Allowed(s, x) && Stays(s, x) && MayLeave(s, x)
    ensures Next(p, s, x).ld.Some? && Rank(Next(p, s, x)) < Rank(s) + if x.commit then 3 else 0
  {
    hide Written, TagsDiffer, Coherent, Ordered, OlderExact, LoadSees, OutRight, MemoryNext, PolicyNext, ReadNext, LoadNext, OutNext, QueueNext,
         DroppedNext, HeadTaken, HitLine, Search, Victim, Beat, DrainLine;
    MemorySize(s);
    StaysMeans(s, x);
    var s' := Next(p, s, x);
    if s.fill {
      NoDrainInFill(s);
      if s.count == 8 {
        FilledHits(p, ram0, s);
      }
    } else if s.Cacheable(s.ld.value.addr) {
      StallingLoad(s);
      HitsAsBefore(p, s);
    }
  }

  lemma FilledHits<P(!new)>(p: Policy<P>, ram0: seq<Words>, s: State<P>)
    requires Inv(p, ram0, s) && s.fill && s.count == 8
    ensures s.ld.Some? && HitLine(LinesNext(p, s), s.ld.value.addr.line).Some?
  {
    hide Written, Coherent, Ordered, OlderExact, LoadSees, OutRight, HitLine, Victim, LinesNext, Waiting;
    LastBeat(p, ram0, s);
    assert LinesNext(p, s)[Victim(p, s.lines, s.pol)].valid;
  }

  /** Outside a refill no line comes or goes. */
  lemma HitsAsBefore<P>(p: Policy<P>, s: State<P>)
    requires !s.fill && s.ld.Some?
    ensures HitLine(LinesNext(p, s), s.ld.value.addr.line) == HitLine(s.lines, s.ld.value.addr.line)
  {
    hide HitLine, DrainLine;
    if Drains(s) {
      DrainKeepsTags(s);
      HitLineSame(DrainLine(s), s.lines, s.ld.value.addr.line);
    }
  }

  /** A cacheable load outside a refill stalls for something buffered, or starts its refill. */
  lemma StallingLoad<P>(s: State<P>)
    requires Stalls(s) && !s.fill && s.ld.Some? && s.Cacheable(s.ld.value.addr) && Waiting(s)
    ensures Drains(s) || (StartFill(s) && !LoadHits(s))
  {
    hide HitLine;
  }

  function Commits(inputs: seq<Inputs>, n: nat, m: nat): nat
    requires n <= m <= |inputs|
  {
    if m == n then 0 else Commits(inputs, n, m - 1) + if inputs[m - 1].commit then 1 else 0
  }

  /** The load in the load stage at n is still there at m. */
  ghost predicate StaysFor<P>(states: seq<State<P>>, inputs: seq<Inputs>, n: nat, m: nat)
    requires n <= m <= |inputs| < |states|
  {
    states[n].ld.Some? && forall i :: n <= i < m ==> Stays(states[i], inputs[i]) && MayLeave(states[i], inputs[i])
  }

  lemma {:induction false} RankBounds<P(!new)>(p: Policy<P>, states: seq<State<P>>, inputs: seq<Inputs>, n: nat, m: nat)
    requires IsRun(p, states, inputs) && n <= m <= |inputs| && StaysFor(states, inputs, n, m)
    ensures states[m].ld.Some? && states[m].ld.value.stamp == states[n].ld.value.stamp && states[m].ld.value.addr == states[n].ld.value.addr
    ensures Rank(states[m]) + (m - n) <= Rank(states[n]) + 3 * Commits(inputs, n, m)
    decreases m
  {
    hide Allowed, Next, Rank, Inv, Stays, MayLeave, Reset;
    if m > n {
      RankBounds(p, states, inputs, n, m - 1);
      assert states[m] == Next(p, states[m - 1], inputs[m - 1]) && Stays(states[m - 1], inputs[m - 1]);
      Reachable(p, states, inputs, m - 1);
      RankFalls(p, states[0].ram, states[m - 1], inputs[m - 1]);
      LoadIs(p, states[m - 1], inputs[m - 1]);
    }
  }

  lemma LoadIs<P>(p: Policy<P>, s: State<P>, x: Inputs)
    requires Allowed(s, x) && Stays(s, x) && MayLeave(s, x)
    ensures Next(p, s, x).ld == LoadNext(s, x) && LoadNext(s, x).value.stamp == s.ld.value.stamp && LoadNext(s, x).value.addr == s.ld.value.addr
  {
    hide Stalls, HeadTaken, MemoryNext, LinesNext, PolicyNext, ReadNext, OutNext, QueueNext, FillNext, DroppedNext;
  }

  /** A load, squashed or not, leaves the load stage within 14 cycles and three for every store committed meanwhile,
      unless it is done and the output buffer is taken. */
  lemma LoadLeaves<P(!new)>(p: Policy<P>, states: seq<State<P>>, inputs: seq<Inputs>, n: nat, m: nat)
    requires IsRun(p, states, inputs) && n <= m <= |inputs| && StaysFor(states, inputs, n, m)
    ensures m - n <= 14 + 3 * Commits(inputs, n, m)
  {
    hide Allowed, Next, Reset, Rank, LoadHits, Stays, MayLeave;
    RankBounds(p, states, inputs, n, m);
    AlwaysSized(p, states, inputs, n);
    RefillingAlways(p, states, inputs, n);
    RankBound(p, states[n]);
  }

  lemma RankBound<P>(p: Policy<P>, s: State<P>)
    requires s.ld.Some? && Sized(s) && Refilling(p, s)
    ensures Rank(s) <= 14
  {
    hide LoadHits;
  }

  /** While a load that counts is there only stores older than it commit, and the queue holds at most four. */
  lemma {:induction false} FewCommits<P(!new)>(p: Policy<P>, states: seq<State<P>>, inputs: seq<Inputs>, n: nat, m: nat)
    requires IsRun(p, states, inputs) && n <= m <= |inputs| && states[n].ld.Some?
    requires forall i :: n <= i <= m ==> states[i].ld == states[n].ld
    requires !states[n].ld.value.squashed
    ensures |states[m].committed| == |states[n].committed| + Commits(inputs, n, m)
    ensures Commits(inputs, n, m) > 0 ==> |states[m].committed| <= |states[n].ld.value.older|
    decreases m
  {
    hide Allowed, Next, Reset, Inv;
    if m > n {
      FewCommits(p, states, inputs, n, m - 1);
      assert states[m] == Next(p, states[m - 1], inputs[m - 1]);
      Reachable(p, states, inputs, m - 1);
      CommitIsOlder(p, states[0].ram, states[m - 1], inputs[m - 1]);
    }
  }

  lemma CommitIsOlder<P(!new)>(p: Policy<P>, ram0: seq<Words>, s: State<P>, x: Inputs)
    requires Inv(p, ram0, s) && Allowed(s, x) && s.ld.Some? && !s.ld.value.squashed
    ensures |Next(p, s, x).committed| == |s.committed| + if x.commit then 1 else 0
    ensures x.commit ==> |s.committed| < |s.ld.value.older|
  {
    hide Written, TagsDiffer, Coherent, Refilling, Waiting, Ordered, LoadSees, OutRight, MemoryNext, LinesNext, PolicyNext, ReadNext, LoadNext,
         OutNext, QueueNext, FillNext, DroppedNext, HeadTaken, StartUncached;
    if s.sq != [] {
      assert (s.committed + s.sq)[|s.committed|] == s.sq[0];
    }
  }

  lemma OlderBound<P(!new)>(p: Policy<P>, states: seq<State<P>>, inputs: seq<Inputs>, n: nat)
    requires IsRun(p, states, inputs) && n < |states| && states[n].ld.Some? && !states[n].ld.value.squashed
    ensures |states[n].ld.value.older| <= |states[n].committed| + SQ_ENTRIES
  {
    hide IsRun, Written, TagsDiffer, Coherent, Refilling, Waiting, Ordered, LoadSees, OutRight;
    Reachable(p, states, inputs, n);
    AlwaysSized(p, states, inputs, n);
  }

  /** Nothing takes the load at n back in this cycle, and a bus or an empty buffer is there for its result. */
  ghost predicate Undisturbed<P>(s: State<P>, x: Inputs, stamp: nat) {
    OutFree(s, x) && !x.flush && (x.squash.Some? ==> stamp <= x.squash.value)
  }

  lemma StaysOrClaims<P>(s: State<P>, x: Inputs)
    requires s.ld.Some? && !s.ld.value.squashed && Undisturbed(s, x, s.ld.value.stamp)
    ensures LoadClaims(s, x) || (LoadNext(s, x) == s.ld && Stays(s, x) && MayLeave(s, x))
  {
    hide Stalls, HeadTaken;
  }

  lemma {:induction false} UntilClaimed<P(!new)>(p: Policy<P>, states: seq<State<P>>, inputs: seq<Inputs>, n: nat, m: nat)
    requires IsRun(p, states, inputs) && n <= m <= |inputs| && states[n].ld.Some? && !states[n].ld.value.squashed
    requires forall i :: n <= i < m ==> Undisturbed(states[i], inputs[i], states[n].ld.value.stamp)
    requires forall i :: n <= i < m && states[i].ld == states[n].ld ==> !LoadClaims(states[i], inputs[i])
    ensures StaysFor(states, inputs, n, m) && forall i :: n <= i <= m ==> states[i].ld == states[n].ld
    decreases m
  {
    hide Allowed, Next, Reset, LoadClaims, Undisturbed, Stays, MayLeave;
    if m > n {
      UntilClaimed(p, states, inputs, n, m - 1);
      StaysOrClaims(states[m - 1], inputs[m - 1]);
      assert states[m] == Next(p, states[m - 1], inputs[m - 1]);
      NextLoad(p, states[m - 1], inputs[m - 1]);
    }
  }

  lemma NextLoad<P>(p: Policy<P>, s: State<P>, x: Inputs)
    requires Allowed(s, x)
    ensures Next(p, s, x).ld == LoadNext(s, x) && Next(p, s, x).out == OutNext(s, x)
  {
    hide LoadNext, OutNext;
  }

  const LOAD_CYCLES := 27

  /** In every run a load that nothing takes back, and whose result finds the output buffer free, is answered within
      27 cycles, from wherever its value comes, however many older stores are still on their way. */
  lemma LoadsFinish<P(!new)>(p: Policy<P>, states: seq<State<P>>, inputs: seq<Inputs>, n: nat) returns (m: nat)
    requires IsRun(p, states, inputs) && n + LOAD_CYCLES <= |inputs| && states[n].ld.Some? && !states[n].ld.value.squashed
    requires forall i :: n <= i < n + LOAD_CYCLES ==> Undisturbed(states[i], inputs[i], states[n].ld.value.stamp)
    ensures n <= m < n + LOAD_CYCLES && states[m].ld == states[n].ld && LoadDoneNow(states[m])
    ensures states[m + 1].out == Some(LoadDone(states[n].ld.value.stamp, LoadResult(states[m], inputs[m]), states[n].ld.value))
    ensures states[m + 1].ld.None?
  {
    hide Reset, Allowed, Next, LoadClaims, Undisturbed, StaysFor, LoadResult;
    var e := n + LOAD_CYCLES;
    if forall i :: n <= i < e && states[i].ld == states[n].ld ==> !LoadClaims(states[i], inputs[i]) {
      UntilClaimed(p, states, inputs, n, e);
      LoadLeaves(p, states, inputs, n, e);
      FewCommits(p, states, inputs, n, e);
      OlderBound(p, states, inputs, n);
    }
    m :| n <= m < e && states[m].ld == states[n].ld && LoadClaims(states[m], inputs[m]);
    NextLoad(p, states[m], inputs[m]);
    assert states[m + 1] == Next(p, states[m], inputs[m]);
    Claimed(states[m], inputs[m]);
  }

  lemma Claimed<P>(s: State<P>, x: Inputs)
    requires LoadClaims(s, x) && Undisturbed(s, x, s.ld.value.stamp)
    ensures LoadDoneNow(s) && LoadNext(s, x).None? && OutNext(s, x) == Some(LoadDone(s.ld.value.stamp, LoadResult(s, x), s.ld.value))
  {
    hide Stalls, LoadResult, HeadTaken;
  }

  // ---- the memory queue ----

  /** Whatever waits at the head of the memory queue is taken once the store queue and the load stage are empty and its
      result finds the output buffer free, unless a recovery stops the queue for the cycle. */
  lemma QuietMeansTaken<P>(s: State<P>, x: Inputs)
    requires x.head.Some? && x.squash.None? && s.sq == [] && s.ld.None? && OutFree(s, x)
    ensures HeadTaken(s, x)
  {
  }

  /** When the head is taken, exactly: a fault or a store as soon as its result finds the output buffer free, a store only
      into a queue of fewer than four; a device load when the store queue and the load stage are empty; another load when
      the youngest queued store that overlaps it covers it, and its result finds the buffer free, or when none overlaps it
      and the load stage is empty. */
  lemma TakenExactlyWhen<P>(s: State<P>, x: Inputs)
    requires x.head.Some? && x.squash.None?
    ensures var op := x.head.value;
            HeadTaken(s, x) <==>
            if op.IsMisaligned() then HeadOutFree(s, x)
            else if op.HeadStore? then HeadOutFree(s, x) && |s.sq| < 4
            else if !s.Cacheable(op.addr) then s.sq == [] && s.ld.None?
            else
              var (ss, m) := (AsStores(s.sq), ByteMask(op.size, op.addr.byte));
              || (YoungestCovers(ss, op.addr, m) && HeadOutFree(s, x))
              || (NoneTouches(ss, op.addr, m) && s.ld.None?)
  {
    hide Stalls, YoungestCovers, NoneTouches, ByteMask, HeadOp.IsMisaligned, Search, HeadOutFree;
    if x.head.value.HeadLoad? {
      SearchDecides(AsStores(s.sq), x.head.value.addr, ByteMask(x.head.value.size, x.head.value.addr.byte));
    }
  }

  /** A cacheable load whose youngest overlapping store in the queue covers it does not wait for anything but the output
      buffer: its result is there in the next cycle. */
  lemma ForwardsAtOnce<P>(s: State<P>, x: Inputs)
    requires x.head.Some? && x.head.value.HeadLoad? && !x.head.value.IsMisaligned() && s.Cacheable(x.head.value.addr)
    requires YoungestCovers(AsStores(s.sq), x.head.value.addr, ByteMask(x.head.value.size, x.head.value.addr.byte))
    requires HeadOutFree(s, x) && x.squash.None? && !x.flush
    ensures HeadTaken(s, x) && LoadNext(s, x) == (if LoadDoneNow(s) then None else s.ld)
    ensures OutNext(s, x) == Some(LoadDone(x.head.value.stamp, QueueValue(s, x.head.value), IssuedLoad(s, x.head.value)))
  {
    hide Stalls, YoungestCovers, Search, ByteMask, QueueValue, HeadOp.IsMisaligned;
    SearchDecides(AsStores(s.sq), x.head.value.addr, ByteMask(x.head.value.size, x.head.value.addr.byte));
  }
}
