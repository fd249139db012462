/** Devices on the data side: a read waits for every older store. */
module DataSideDevices {
  import opened Bytes
  import opened StoreBuffer
  import opened DataSide
  import opened DataSideInvariant
  import opened DataSideTheorems

  /** When a device load leaves the memory queue every older store has committed, and until it finishes none does. */
  ghost predicate DeviceWaits<P>(s: State<P>) {
    s.ld.Some? && !s.ld.value.squashed && !s.Cacheable(s.ld.value.addr) ==> s.ld.value.older == s.committed
  }

  lemma NoCommitDuring<P>(s: State<P>, x: Inputs)
    requires Allowed(s, x) && OlderExact(s) && DeviceWaits(s)
    requires s.ld.Some? && !s.ld.value.squashed && !s.Cacheable(s.ld.value.addr)
    ensures !x.commit
  {
    if s.sq != [] {
      assert (s.committed + s.sq)[|s.committed|] == s.sq[0];
    }
  }

  lemma DeviceWaitsStep<P(!new)>(p: Policy<P>, ram0: seq<Words>, s: State<P>, x: Inputs)
    requires Allowed(s, x) && Inv(p, ram0, s) && DeviceWaits(s)
    ensures DeviceWaits(Next(p, s, x))
  {
    hide MemoryNext, LinesNext, PolicyNext, ReadNext, LoadNext, OutNext, QueueNext, FillNext, StartUncached, DroppedNext, Search, Written, Coherent,
         Refilling, Waiting, Ordered, LoadSees, OutRight, TagsDiffer, IsExact, HeadOutFree, HeadOp.IsMisaligned;
    MemorySize(s);
    var ld' := LoadNext(s, x);
    if ld'.Some? && !ld'.value.squashed {
      LoadCases(s, x);
      if s.ld.Some? {
        if !s.Cacheable(s.ld.value.addr) {
          NoCommitDuring(s, x);
        }
      } else if !s.Cacheable(x.head.value.addr) {
        assert s.committed + s.sq == s.committed;
      }
    }
  }

  lemma {:induction false} AlwaysWaits<P(!new)>(p: Policy<P>, states: seq<State<P>>, inputs: seq<Inputs>, n: nat)
    requires IsRun(p, states, inputs) && n < |states|
    ensures DeviceWaits(states[n])
  {
    hide Allowed, Next, Inv;
    if n > 0 {
      AlwaysWaits(p, states, inputs, n - 1);
      Reachable(p, states, inputs, n - 1);
      DeviceWaitsStep(p, states[0].ram, states[n - 1], inputs[n - 1]);
    }
  }

  /** In every run, when a device read starts, every older store has been written to memory or its device, and no
      other has: the writes so far are exactly the stores before the load in program order. */
  lemma ReadsFollowWrites<P(!new)>(p: Policy<P>, states: seq<State<P>>, inputs: seq<Inputs>, n: nat)
    requires IsRun(p, states, inputs) && n < |states| && StartUncached(states[n]) && !states[n].ld.value.squashed
    ensures var (s, ld) := (states[n], states[n].ld.value);
            && s.writes == AsStores(ld.older) && IsOlderPart(ld.older, s.committed + s.sq, ld.stamp)
            && forall q :: q in s.committed + s.sq ==> (q in s.committed <==> q.stamp < ld.stamp)
  {
    hide IsRun, Coherent, Refilling, Waiting, Ordered, LoadSees, OutRight, TagsDiffer, IsOlderPart, IsExact, OlderExact;
    Reachable(p, states, inputs, n);
    AlwaysWaits(p, states, inputs, n);
    OlderStoresAreExact(p, states, inputs, n);
    var s := states[n];
    assert s.writes + s.sb == s.writes;
    forall q | q in s.committed + s.sq
      ensures q in s.committed <==> q.stamp < s.ld.value.stamp
    {
      OlderIs(s.ld.value.older, s.committed + s.sq, s.ld.value.stamp, q);
    }
  }

  lemma OlderIs(older: seq<Queued>, all: seq<Queued>, stamp: nat, q: Queued)
    requires IsOlderPart(older, all, stamp) && q in all
    ensures q in older <==> q.stamp < stamp
  {
  }

  /** A device load that finishes has the device's answer of that cycle to the read that started in the cycle before,
      and nothing has been written in between. */
  lemma DeviceValue<P(!new)>(p: Policy<P>, states: seq<State<P>>, inputs: seq<Inputs>, n: nat)
    requires IsRun(p, states, inputs) && n < |inputs| && LoadClaims(states[n], inputs[n]) && !states[n].Cacheable(states[n].ld.value.addr)
    ensures n > 0 && StartUncached(states[n - 1]) && states[n - 1].ld == states[n].ld && states[n - 1].writes == states[n].writes
    ensures LoadResult(states[n], inputs[n]) == inputs[n].device
  {
    hide Allowed, Next, LoadResult, StartUncached, Inv, LoadClaims;
    DoneMeansWaited(states[n], inputs[n]);
    if n == 0 {
      ResetIsQuiet(p, states, inputs);
    } else {
      assert Allowed(states[n - 1], inputs[n - 1]) && states[n] == Next(p, states[n - 1], inputs[n - 1]);
      ReadStarted(p, states[n - 1], inputs[n - 1]);
    }
  }

  lemma DoneMeansWaited<P>(s: State<P>, x: Inputs)
    requires LoadClaims(s, x) && !s.Cacheable(s.ld.value.addr)
    ensures s.uncachedWait && s.ld.Some? && !s.ld.value.squashed && LoadResult(s, x) == x.device
  {
    hide Search, HitLine;
  }

  lemma ReadStarted<P>(p: Policy<P>, s: State<P>, x: Inputs)
    requires Allowed(s, x) && Next(p, s, x).uncachedWait && Next(p, s, x).ld.Some? && !Next(p, s, x).ld.value.squashed
    ensures StartUncached(s) && Next(p, s, x).ld == s.ld && Next(p, s, x).writes == s.writes
  {
    hide MemoryNext, LinesNext, PolicyNext, ReadNext, OutNext, QueueNext, FillNext, DroppedNext, Search, HeadTaken, HitLine;
  }

  /** A device load that is done leaves if and only if the output buffer is free; if it is not, the device is read
      again in the next cycle. */
  lemma HeldReadRepeats<P(!new)>(p: Policy<P>, ram0: seq<Words>, s: State<P>, x: Inputs)
    requires Inv(p, ram0, s) && DeviceWaits(s) && Allowed(s, x)
    requires LoadDoneNow(s) && !s.ld.value.squashed && !s.Cacheable(s.ld.value.addr)
    requires !x.flush && (x.squash.Some? ==> s.ld.value.stamp <= x.squash.value)
    ensures StartUncached(Next(p, s, x)) <==> !OutFree(s, x)
  {
    hide Written, Coherent, Refilling, Waiting, Ordered, LoadSees, OutRight, TagsDiffer, MemoryNext, LinesNext, PolicyNext, ReadNext, OutNext, QueueNext,
         DroppedNext, Search, HeadTaken, HitLine, IsExact, OlderExact, DeviceWaits;
    MemorySize(s);
    NoCommitDuring(s, x);
  }

  lemma ResetIsQuiet<P(!new)>(p: Policy<P>, states: seq<State<P>>, inputs: seq<Inputs>)
    requires IsRun(p, states, inputs)
    ensures !states[0].uncachedWait
  {
    hide Allowed, Next;
  }
}
