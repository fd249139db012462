/** Fetch keeps the invariant: the packets follow the predicted path, and their histories are those of
    just before themselves. */
module CoreFetch {
  import opened Prelude
  import opened Isa
  import opened Dataflow
  import opened Core
  import opened CoreInvariant
  import RAT = RenameTable

  lemma PacketFacts<M>(isa: Isa<M>, pc: Word, g: Guess, ghr: History)
    requires Decodes(isa)
    ensures var p := MakePacket(isa, pc, g, ghr);
            && p.pc == pc && p.instr == isa.fetch(pc) && p.ghr == ghr && (p.predTaken ==> p.Control())
            && (p.Control() ==> p.instr.barrier)
  {
  }

  /** Whatever follows in the same bundle is fetched from the fall-through address, which is where it is. */
  lemma FollowerAddress<M>(isa: Isa<M>, p0: Op, p1: Op)
    requires LetsFollow(p0, p1) && (p0.predTaken ==> p0.Control()) && (p0.Control() ==> p0.instr.barrier)
    ensures p0.PredNext(isa) == isa.fallThrough(p0.pc)
    ensures (p1.Control() ==> p1.instr.barrier) ==> !(p0.instr.conditional && p1.Control())
  {
  }

  lemma PushPackets<M>(isa: Isa<M>, q: seq<Op>, p: Op)
    requires Packets(isa, q) && p.instr == isa.fetch(p.pc) && (p.predTaken ==> p.Control())
    ensures Packets(isa, q + [p])
  {
  }

  /** Adding one packet to the end of the queue. */
  lemma PushOrder<M>(isa: Isa<M>, pc: Word, q: seq<Op>, fetchPc: Word, p: Op)
    requires QueueChain(isa, pc, q, fetchPc) && p.pc == fetchPc
    ensures QueueChain(isa, pc, q + [p], p.PredNext(isa))
  {
    hide Op.PredNext;
    var q' := q + [p];
    forall i | 0 <= i < |q'|
      ensures q'[i].pc == QueuePc(isa, pc, q', i)
    {
      assert QueuePc(isa, pc, q', i) == QueuePc(isa, pc, q, i);
      assert i < |q| ==> q[i].pc == QueuePc(isa, pc, q, i);
    }
  }

  /** The queue part of the history invariant, on its own. */
  ghost predicate QueueHistories(h: History, q: seq<Op>, spec: History) {
    && spec == ShiftAll(h, Predictions(q, |q|))
    && forall i :: 0 <= i < |q| && q[i].Control() ==> q[i].ghr == ShiftAll(h, Predictions(q, i))
  }

  lemma {:induction false} PredictionsSame(q: seq<Op>, q': seq<Op>, n: nat)
    requires n <= |q| && n <= |q'| && forall k :: 0 <= k < n ==> q[k] == q'[k]
    ensures Predictions(q, n) == Predictions(q', n)
  {
    if n > 0 {
      PredictionsSame(q, q', n - 1);
    }
  }

  lemma PushPredictions(q: seq<Op>, p: Op)
    ensures forall i :: 0 <= i <= |q| ==> Predictions(q + [p], i) == Predictions(q, i)
    ensures Predictions(q + [p], |q| + 1) == Predictions(q, |q|) + if p.instr.conditional then [p.predTaken] else []
  {
    forall i | 0 <= i <= |q|
      ensures Predictions(q + [p], i) == Predictions(q, i)
    {
      PredictionsSame(q, q + [p], i);
    }
  }

  lemma PushHistory(h: History, q: seq<Op>, spec: History, p: Op)
    requires QueueHistories(h, q, spec) && (p.Control() ==> p.ghr == spec)
    ensures QueueHistories(h, q + [p], Shifted(spec, p))
  {
    hide ShiftAll, Predictions, Shift;
    PushPredictions(q, p);
    var ds := Predictions(q, |q|);
    ShiftAllSnoc(h, ds, p.predTaken);
    assert ds + [] == ds;
  }

  /** The fields fetch may change, and the two ways it can extend the queue. */
  lemma FetchCases<M>(isa: Isa<M>, s: State<M>, gs: seq<Guess>)
    requires s.Shape()
    ensures var s' := Fetch(isa, s, gs);
            && s' == s.(queue := s'.queue, fetchPc := s'.fetchPc, ghrSpec := s'.ghrSpec)
            && (s' == s ||
                (|gs| > 0 &&
                 var p0 := MakePacket(isa, s.fetchPc, gs[0], s.ghrSpec);
                 || (s'.queue == s.queue + [p0] && s'.fetchPc == p0.PredNext(isa) && s'.ghrSpec == Shifted(s.ghrSpec, p0) &&
                     (|s.queue| == 0 || (|s.queue| == 1 && LetsFollow(s.queue[0], p0))))
                 || (|gs| > 1 && |s.queue| == 0 &&
                     var p1 := MakePacket(isa, isa.fallThrough(s.fetchPc), gs[1], s.ghrSpec);
                     s'.queue == [p0, p1] && LetsFollow(p0, p1) && s'.fetchPc == p1.PredNext(isa) &&
                     s'.ghrSpec == if p1.instr.conditional then Shifted(s.ghrSpec, p1) else Shifted(s.ghrSpec, p0))))
  {
    hide MakePacket, LetsFollow, Shifted, Op.PredNext;
  }

  lemma FetchOne<M>(isa: Isa<M>, pc: Word, h: History, s: State<M>, g: Guess)
    requires Decodes(isa) && Packets(isa, s.queue) && QueueChain(isa, pc, s.queue, s.fetchPc) && QueueHistories(h, s.queue, s.ghrSpec)
    ensures var p0 := MakePacket(isa, s.fetchPc, g, s.ghrSpec);
            && Packets(isa, s.queue + [p0]) && QueueChain(isa, pc, s.queue + [p0], p0.PredNext(isa))
            && QueueHistories(h, s.queue + [p0], Shifted(s.ghrSpec, p0))
  {
    hide QueueChain, QueueHistories, Packets, MakePacket, Shifted, Op.PredNext;
    var p0 := MakePacket(isa, s.fetchPc, g, s.ghrSpec);
    PacketFacts(isa, s.fetchPc, g, s.ghrSpec);
    PushPackets(isa, s.queue, p0);
    PushOrder(isa, pc, s.queue, s.fetchPc, p0);
    PushHistory(h, s.queue, s.ghrSpec, p0);
  }

  /** Two packets in one cycle shift the history at most once, and that is enough. */
  lemma FetchTwo<M>(isa: Isa<M>, pc: Word, h: History, s: State<M>, g0: Guess, g1: Guess)
    requires Decodes(isa) && s.queue == [] && QueueChain(isa, pc, s.queue, s.fetchPc) && QueueHistories(h, s.queue, s.ghrSpec)
    requires LetsFollow(MakePacket(isa, s.fetchPc, g0, s.ghrSpec), MakePacket(isa, isa.fallThrough(s.fetchPc), g1, s.ghrSpec))
    ensures var p0 := MakePacket(isa, s.fetchPc, g0, s.ghrSpec);
            var p1 := MakePacket(isa, isa.fallThrough(s.fetchPc), g1, s.ghrSpec);
            && Packets(isa, [p0, p1]) && QueueChain(isa, pc, [p0, p1], p1.PredNext(isa))
            && QueueHistories(h, [p0, p1], if p1.instr.conditional then Shifted(s.ghrSpec, p1) else Shifted(s.ghrSpec, p0))
  {
    hide QueueChain, QueueHistories, MakePacket, Op.PredNext, LetsFollow;
    var p0 := MakePacket(isa, s.fetchPc, g0, s.ghrSpec);
    var p1 := MakePacket(isa, isa.fallThrough(s.fetchPc), g1, s.ghrSpec);
    PacketFacts(isa, s.fetchPc, g0, s.ghrSpec);
    PacketFacts(isa, isa.fallThrough(s.fetchPc), g1, s.ghrSpec);
    FollowerAddress(isa, p0, p1);
    FetchOne(isa, pc, h, s, g0);
    assert s.queue + [p0] == [p0];
    PushPackets(isa, [p0], p1);
    PushOrder(isa, pc, [p0], p0.PredNext(isa), p1);
    PushHistory(h, [p0], Shifted(s.ghrSpec, p0), p1);
    assert [p0] + [p1] == [p0, p1];
  }

  /** Where fetch goes on after the instruction at pc, by a guess that only control instructions heed. */
  function Guessed<M>(isa: Isa<M>, pc: Word, g: Guess): Word {
    if g.taken && (isa.fetch(pc).cls == Branch || isa.fetch(pc).conditional) then g.target else isa.fallThrough(pc)
  }

  /** What a fetch of two brings into an empty queue: both instructions, from successive addresses, exactly if the first
      one does not end its bundle; a control or system instruction does, save a branch guessed not taken in front of one
      that is neither. */
  lemma BundleIsFetched<M>(isa: Isa<M>, s: State<M>, g0: Guess, g1: Guess)
    requires s.Shape() && |s.queue| == 0
    ensures var (s', pc) := (Fetch(isa, s, [g0, g1]), isa.fallThrough(s.fetchPc));
            var (first, second) := (isa.fetch(s.fetchPc), isa.fetch(pc));
            && 1 <= |s'.queue| <= 2 && s'.queue[0].pc == s.fetchPc && s'.queue[0].instr == first
            && (|s'.queue| == 2 <==> !first.barrier || (first.conditional && !g0.taken && !second.barrier))
            && (|s'.queue| == 2 ==> s'.queue[1].pc == pc && s'.queue[1].instr == second)
            && s'.fetchPc == if |s'.queue| == 2 then Guessed(isa, pc, g1) else Guessed(isa, s.fetchPc, g0)
  {
  }

  lemma FetchKeepsInv<M>(isa: Isa<M>, s: State<M>, gs: seq<Guess>)
    requires Decodes(isa) && Inv(isa, s)
    ensures Inv(isa, Fetch(isa, s, gs)) && Fetch(isa, s, gs).log == s.log && Fetch(isa, s, gs).arch == s.arch
    ensures Fetch(isa, s, gs).ghrRetired == s.ghrRetired
  {
    hide Fetch, Chain, PcAt, Packets, QueueChain, Outcomes, Operands, RAT.Agrees, Renames, InUnit, MemoryOrder, LeftStores,
         ShiftAll, Directions, Predictions, MakePacket, LetsFollow, Op.PredNext, Shifted;
    FetchCases(isa, s, gs);
    var pc := PcAt(isa, s.arch.pc, s.w, |s.w.ops|);
    var h := ShiftAll(s.ghrRetired, Directions(s.w.ops, s.w.phases, |s.w.ops|));
    assert QueueHistories(h, s.queue, s.ghrSpec);
    if |gs| > 0 {
      FetchOne(isa, pc, h, s, gs[0]);
      if |gs| > 1 && s.queue == [] &&
         LetsFollow(MakePacket(isa, s.fetchPc, gs[0], s.ghrSpec), MakePacket(isa, isa.fallThrough(s.fetchPc), gs[1], s.ghrSpec)) {
        FetchTwo(isa, pc, h, s, gs[0], gs[1]);
      }
    }
  }
}
