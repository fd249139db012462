/** What holds in every reachable state of the back end. */
module CoreInvariant {
  import opened Prelude
  import opened OooPackage
  import opened Isa
  import opened Wakeup
  import opened Dataflow
  import opened Core
  import RAT = RenameTable

  // ---- program order: the chain of program counters ----

  /** Every packet is the instruction at its address, and only control flow is predicted taken. */
  ghost predicate Packets<M>(isa: Isa<M>, ops: seq<Op>) {
    forall i :: 0 <= i < |ops| ==> ops[i].instr == isa.fetch(ops[i].pc) && (ops[i].predTaken ==> ops[i].Control())
  }

  /** Where the machine goes after an instruction: its real successor once known, else the predicted one. */
  function Successor<M>(isa: Isa<M>, op: Op, p: Phase): Word {
    if p.Done? && !p.out.exception then p.out.next else op.PredNext(isa)
  }

  function PcAt<M>(isa: Isa<M>, pc: Word, w: Window, i: nat): Word
    requires i <= |w.ops| && i <= |w.phases|
  {
    if i == 0 then pc else Successor(isa, w.ops[i - 1], w.phases[i - 1])
  }

  ghost predicate Chain<M>(isa: Isa<M>, pc: Word, w: Window)
    requires w.Sized()
  {
    forall i :: 0 <= i < |w.ops| ==> w.ops[i].pc == PcAt(isa, pc, w, i)
  }

  function QueuePc<M>(isa: Isa<M>, pc: Word, q: seq<Op>, i: nat): Word
    requires i <= |q|
  {
    if i == 0 then pc else q[i - 1].PredNext(isa)
  }

  ghost predicate QueueChain<M>(isa: Isa<M>, pc: Word, q: seq<Op>, fetchPc: Word) {
    fetchPc == QueuePc(isa, pc, q, |q|) && forall i :: 0 <= i < |q| ==> q[i].pc == QueuePc(isa, pc, q, i)
  }

  ghost predicate InOrder<M>(isa: Isa<M>, s: State<M>)
    requires s.Shape()
  {
    && Packets(isa, s.w.ops) && Packets(isa, s.queue) && Chain(isa, s.arch.pc, s.w)
    && QueueChain(isa, PcAt(isa, s.arch.pc, s.w, |s.w.ops|), s.queue, s.fetchPc)
  }

  // ---- results and operands ----

  /** Whatever is executing or finished has, or will broadcast, the outcome program order gives it. */
  ghost predicate Outcomes<M>(isa: Isa<M>, f: Flow<M>, w: Window)
    requires f.Valid() && w.Sized()
  {
    forall i :: 0 <= i < |w.phases| && !w.phases[i].Waiting? ==> w.phases[i].out == Spec(isa, f, w.ops, i)
  }

  /** Source o of entry i, register r: a present value is the one program order gives; a missing or promised
      one names a live, unfinished, strictly older entry, the youngest such that writes r; and a promised one
      names an instruction that is in an ALU register, so its value is on a bus this very cycle, and waits in
      a station that looks there. */
  ghost predicate OperandOk<M>(isa: Isa<M>, f: Flow<M>, w: Window, alu0: Option<Tag>, alu1: Option<Tag>, i: nat, r: Reg, o: Operand)
    requires f.Valid() && w.Sized() && i <= |w.ops|
  {
    && (o.spec ==> o.ready && (alu0 == Some(o.tag) || alu1 == Some(o.tag)) && i < |w.ops| && SpecStation(w.ops[i].instr.cls))
    && (o.ready && !o.spec ==> o.value == FlowAt(isa, f, w.ops, i).regs[r])
    && (!o.ready || o.spec ==>
          r != 0 && Writes(w.ops, i, r, w.IndexOf(o.tag)) && !w.phases[w.IndexOf(o.tag)].Done?)
  }

  ghost predicate Operands<M>(isa: Isa<M>, f: Flow<M>, w: Window, alu0: Option<Tag>, alu1: Option<Tag>)
    requires f.Valid() && w.Sized()
  {
    forall i :: 0 <= i < |w.phases| && w.phases[i].Waiting? ==>
      && OperandOk(isa, f, w, alu0, alu1, i, w.ops[i].instr.src1, w.phases[i].op1)
      && OperandOk(isa, f, w, alu0, alu1, i, w.ops[i].instr.src2, w.phases[i].op2)
  }

  // ---- renaming ----

  ghost predicate Unresolved(w: Window, i: nat)
    requires w.Sized()
  {
    i < |w.ops| && w.ops[i].instr.cls == Branch && !w.phases[i].Done?
  }

  /** The checkpoint of an unresolved branch is its own, and holds the renames up to and including it. */
  ghost predicate HoldsCheckpoint<M>(s: State<M>, i: nat)
    requires s.Shape() && i < |s.w.ops|
  {
    var k := s.w.ops[i].ckpt;
    s.used[k] && s.owner[k] == s.w.TagOf(i) && RAT.Agrees(s.rat.saved[k], Renames(s.w.head, s.w.ops, i + 1))
  }

  ghost predicate Renaming<M>(s: State<M>)
    requires s.Shape()
  {
    && RAT.Agrees(s.rat.current, Renames(s.w.head, s.w.ops, |s.w.ops|))
    && (forall i :: 0 <= i < |s.w.ops| && Unresolved(s.w, i) ==> HoldsCheckpoint(s, i))
    && (forall k :: 0 <= k < RAT.CKPTS && s.used[k] ==>
          Unresolved(s.w, s.w.IndexOf(s.owner[k])) && s.w.ops[s.w.IndexOf(s.owner[k])].ckpt == k)
  }

  // ---- execution ----

  ghost predicate InUnit(w: Window, t: Option<Tag>, c: Class)
    requires w.Sized()
  {
    t.Some? ==> w.Live(t.value) && w.phases[w.IndexOf(t.value)].Executing? && w.ops[w.IndexOf(t.value)].instr.cls == c
  }

  /** The issue registers hold live, executing instructions of their own class, and all of them. */
  ghost predicate Units<M>(s: State<M>)
    requires s.Shape()
  {
    && InUnit(s.w, s.alu0, Alu) && InUnit(s.w, s.alu1, Alu) && InUnit(s.w, s.br, Branch)
    && (s.alu0.Some? ==> s.alu0 != s.alu1)
    && (forall i :: 0 <= i < |s.w.ops| && s.w.phases[i].Executing? ==>
          && (s.w.ops[i].instr.cls == Alu ==> s.alu0 == Some(s.w.TagOf(i)) || s.alu1 == Some(s.w.TagOf(i)))
          && (s.w.ops[i].instr.cls == Branch ==> s.br == Some(s.w.TagOf(i))))
  }

  // ---- memory order ----

  /** Memory operations leave their queue in program order. */
  ghost predicate MemoryOrder(w: Window)
    requires w.Sized()
  {
    forall i, j :: 0 <= i < j < |w.ops| && w.ops[i].IsMem() && w.ops[j].IsMem() && w.phases[i].Waiting? ==> w.phases[j].Waiting?
  }

  /** Every store that left without a fault, and is not yet committed, is in the store queue, in order. */
  ghost predicate Stores<M>(s: State<M>)
    requires s.Shape()
  {
    MemoryOrder(s.w) && s.sq == LeftStores(s.w, |s.w.ops|)
  }

  // ---- branch history ----

  /** The speculative history is the retired one followed by every direction in flight and in the queue, and
      each control instruction carries the history of just before itself. */
  ghost predicate Histories<M>(s: State<M>)
    requires s.Shape()
  {
    var n := |s.w.ops|;
    var h := ShiftAll(s.ghrRetired, Directions(s.w.ops, s.w.phases, n));
    && s.ghrSpec == ShiftAll(h, Predictions(s.queue, |s.queue|))
    && (forall i :: 0 <= i < |s.queue| && s.queue[i].Control() ==> s.queue[i].ghr == ShiftAll(h, Predictions(s.queue, i)))
    && (forall i :: 0 <= i < n && s.w.ops[i].Control() ==> s.w.ops[i].ghr == ShiftAll(s.ghrRetired, Directions(s.w.ops, s.w.phases, i)))
  }

  /** A bundle in the queue never holds two control instructions. */
  ghost predicate Bundled<M>(s: State<M>)
    requires s.Shape()
  {
    |s.queue| == 2 ==> LetsFollow(s.queue[0], s.queue[1])
  }

  /** The outcomes of the conditional branches in a log, oldest first. */
  function RetiredDirections<M>(isa: Isa<M>, log: seq<Event>): seq<bool> {
    if |log| == 0 then []
    else
      var e := log[|log| - 1];
      RetiredDirections(isa, log[..|log| - 1]) +
      (if e.Retired? && isa.fetch(e.pc).conditional then [e.out.taken] else [])
  }

  /** Everything committed so far is what the sequential machine does from the initial state. */
  ghost predicate Committed<M>(isa: Isa<M>, init: Arch<M>, s: State<M>)
    requires s.Shape()
  {
    && init.Valid() && Replay(isa, init, s.log) == Some(s.arch)
    && s.ghrRetired == ShiftAll(NO_HISTORY, RetiredDirections(isa, s.log))
  }

  const NO_HISTORY: History := [false, false, false, false, false, false, false, false]

  ghost predicate Inv<M>(isa: Isa<M>, s: State<M>) {
    && s.Shape() && InOrder(isa, s) && Outcomes(isa, s.Flow(), s.w) && Operands(isa, s.Flow(), s.w, s.alu0, s.alu1)
    && Renaming(s) && Units(s) && Stores(s) && Histories(s) && Bundled(s)
  }
}
