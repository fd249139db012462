/** The instructions in flight, in program order, and what each of them should compute. */
module Dataflow {
  import opened Prelude
  import opened OooPackage
  import opened Isa
  import opened Wakeup
  import RAT = RenameTable

  /** Where an instruction is: waiting in a station, executing, or finished in the reorder buffer. */
  datatype Phase = Waiting(op1: Operand, op2: Operand) | Executing(out: Outcome) | Done(out: Outcome)

  const GHR_BITS := 8

  /** A branch-history register: the newest direction is last. */
  type History = h: seq<bool> | |h| == GHR_BITS witness [false, false, false, false, false, false, false, false]

  /** The fields of an instruction that never change while it is in flight. */
  datatype Op = Op(pc: Word, instr: Instr, predTaken: bool, predTarget: Word, ghr: History, ckpt: RAT.Ckpt)
  {
    /** Branch, jal or jalr, or the branch opcode with an illegal encoding. */
    predicate Control() {
      instr.cls == Branch || instr.conditional
    }

    predicate IsMem() {
      instr.cls == Load || instr.cls == Store
    }

    function PredNext<M>(isa: Isa<M>): Word {
      if predTaken then predTarget else isa.fallThrough(pc)
    }
  }

  /** The reorder buffer's contents: entry i has tag head + i. */
  datatype Window = Window(head: Tag, ops: seq<Op>, phases: seq<Phase>)
  {
    ghost predicate Sized() {
      |ops| == |phases| <= ROB_SIZE
    }

    function TagOf(i: nat): Tag {
      TagAt(head, i)
    }

    function IndexOf(t: Tag): nat {
      Age(t, head)
    }

    ghost predicate Live(t: Tag) {
      IndexOf(t) < |ops|
    }
  }

  // ---- what program order says ----

  /** Registers and memory at one point of program order. */
  datatype Flow<M> = Flow(regs: seq<Word>, mem: M)
  {
    ghost predicate Valid() {
      |regs| == 64 && regs[0] == 0
    }
  }

  function ExecuteIn<M>(isa: Isa<M>, f: Flow<M>, op: Op): Outcome
    requires f.Valid()
  {
    Execute(isa, op.instr, op.pc, f.regs[op.instr.src1], f.regs[op.instr.src2], f.mem)
  }

  function FlowStep<M>(isa: Isa<M>, f: Flow<M>, op: Op): (f': Flow<M>)
    requires f.Valid()
    ensures f'.Valid()
  {
    var out := ExecuteIn(isa, f, op);
    Flow(WriteReg(f.regs, op.instr.dst, out.value), WriteMem(isa, f.mem, op.instr, out))
  }

  /** Registers and memory just before the i-th instruction in flight. */
  function FlowAt<M>(isa: Isa<M>, f: Flow<M>, ops: seq<Op>, i: nat): (r: Flow<M>)
    requires f.Valid() && i <= |ops|
    ensures r.Valid()
  {
    if i == 0 then f else FlowStep(isa, FlowAt(isa, f, ops, i - 1), ops[i - 1])
  }

  /** The one right outcome of the i-th instruction in flight. */
  function Spec<M>(isa: Isa<M>, f: Flow<M>, ops: seq<Op>, i: nat): Outcome
    requires f.Valid() && i < |ops|
  {
    ExecuteIn(isa, FlowAt(isa, f, ops, i), ops[i])
  }

  lemma {:induction false} FlowPrefix<M>(isa: Isa<M>, f: Flow<M>, ops: seq<Op>, ops': seq<Op>, i: nat)
    requires f.Valid() && i <= |ops| && i <= |ops'|
    requires forall k :: 0 <= k < i ==> ops[k] == ops'[k]
    ensures FlowAt(isa, f, ops, i) == FlowAt(isa, f, ops', i)
  {
    if i > 0 {
      FlowPrefix(isa, f, ops, ops', i - 1);
    }
  }

  /** Executing the oldest instruction architecturally does not change what the others should compute. */
  lemma {:induction false} FlowDrop<M>(isa: Isa<M>, f: Flow<M>, ops: seq<Op>, i: nat)
    requires f.Valid() && i < |ops|
    ensures FlowAt(isa, FlowStep(isa, f, ops[0]), ops[1..], i) == FlowAt(isa, f, ops, i + 1)
  {
    hide FlowStep;
    if i > 0 {
      FlowDrop(isa, f, ops, i - 1);
    } else {
      assert FlowAt(isa, f, ops, 0) == f;
    }
  }

  // ---- producers ----

  /** Entry j is the youngest one before i that writes r. */
  ghost predicate Writes(ops: seq<Op>, i: nat, r: Reg, j: nat)
    requires i <= |ops|
  {
    j < i && ops[j].instr.dst == r && forall k :: j < k < i ==> ops[k].instr.dst != r
  }

  lemma {:induction false} FlowUntouched<M>(isa: Isa<M>, f: Flow<M>, ops: seq<Op>, j: nat, i: nat, r: Reg)
    requires f.Valid() && j <= i <= |ops|
    requires forall k :: j <= k < i ==> ops[k].instr.dst != r
    ensures FlowAt(isa, f, ops, i).regs[r] == FlowAt(isa, f, ops, j).regs[r]
  {
    if j < i {
      FlowUntouched(isa, f, ops, j, i - 1, r);
    }
  }

  lemma WrittenValue<M>(isa: Isa<M>, f: Flow<M>, op: Op, r: Reg)
    requires f.Valid() && r != 0 && op.instr.dst == r
    ensures FlowStep(isa, f, op).regs[r] == ExecuteIn(isa, f, op).value
  {
    hide ExecuteIn;
  }

  /** The value program order gives entry i in register r is what its producer computes. */
  lemma ProducerValue<M>(isa: Isa<M>, f: Flow<M>, ops: seq<Op>, i: nat, r: Reg, j: nat)
    requires f.Valid() && i <= |ops| && r != 0 && Writes(ops, i, r, j)
    ensures FlowAt(isa, f, ops, i).regs[r] == Spec(isa, f, ops, j).value
  {
    hide FlowStep, ExecuteIn;
    FlowUntouched(isa, f, ops, j + 1, i, r);
    WrittenValue(isa, FlowAt(isa, f, ops, j), ops[j], r);
  }

  lemma NoProducerValue<M>(isa: Isa<M>, f: Flow<M>, ops: seq<Op>, i: nat, r: Reg)
    requires f.Valid() && i <= |ops|
    requires forall k :: 0 <= k < i ==> ops[k].instr.dst != r
    ensures FlowAt(isa, f, ops, i).regs[r] == f.regs[r]
  {
    FlowUntouched(isa, f, ops, 0, i, r);
  }

  /** The renames of the first n instructions in flight, as the alias table sees them. */
  function Renames(head: Tag, ops: seq<Op>, n: nat): (rs: seq<RAT.Rename>)
    requires n <= |ops|
    ensures |rs| == n && forall i :: 0 <= i < n ==> rs[i] == RAT.Rename(ops[i].instr.dst, TagAt(head, i))
  {
    if n == 0 then [] else Renames(head, ops, n - 1) + [RAT.Rename(ops[n - 1].instr.dst, TagAt(head, n - 1))]
  }

  lemma RenamesExtend(head: Tag, ops: seq<Op>, ops': seq<Op>, n: nat)
    requires n <= |ops| && n <= |ops'| && forall k :: 0 <= k < n ==> ops[k] == ops'[k]
    ensures Renames(head, ops, n) == Renames(head, ops', n)
  {
  }

  lemma RenamesDrop(head: Tag, ops: seq<Op>, n: nat)
    requires 0 < n <= |ops|
    ensures Renames(TagAt(head, 1), ops[1..], n - 1) == Renames(head, ops, n)[1..]
  {
    var rest := Renames(TagAt(head, 1), ops[1..], n - 1);
    forall i | 0 <= i < n - 1
      ensures rest[i] == Renames(head, ops, n)[i + 1]
    {
      TagAtAfterRetire(head, 1, i);
    }
  }

  lemma RenamesDistinct(head: Tag, ops: seq<Op>, n: nat)
    requires n <= |ops| && n <= ROB_SIZE
    ensures RAT.DistinctTags(Renames(head, ops, n))
  {
    forall i, j | 0 <= i < j < n
      ensures Renames(head, ops, n)[i].tag != Renames(head, ops, n)[j].tag
    {
      if TagAt(head, i) == TagAt(head, j) {
        TagsDistinct(head, i, j);
      }
    }
  }

  // ---- stores ----

  /** A store that has left the memory queue: its address and data are known. */
  datatype QueuedStore = QueuedStore(tag: Tag, instr: Instr, addr: Word, data: Word)

  function Apply<M>(isa: Isa<M>, mem: M, sq: seq<QueuedStore>): M {
    if |sq| == 0 then mem
    else
      var e := sq[|sq| - 1];
      isa.store(Apply(isa, mem, sq[..|sq| - 1]), e.instr, e.addr, e.data)
  }

  /** The store queue that the first n instructions in flight imply: finished address and data, no fault. */
  function LeftStores(w: Window, n: nat): seq<QueuedStore>
    requires n <= |w.ops| && n <= |w.phases|
  {
    if n == 0 then []
    else if HasLeft(w, n - 1) then LeftStores(w, n - 1) + [QueuedOf(w, n - 1)]
    else LeftStores(w, n - 1)
  }

  predicate HasLeft(w: Window, i: nat)
    requires i < |w.ops| && i < |w.phases|
  {
    w.ops[i].instr.cls == Store && !w.phases[i].Waiting? && !w.phases[i].out.exception
  }

  function QueuedOf(w: Window, i: nat): QueuedStore
    requires i < |w.ops| && i < |w.phases| && HasLeft(w, i)
  {
    QueuedStore(w.TagOf(i), w.ops[i].instr, w.phases[i].out.addr, w.phases[i].out.data)
  }

  lemma ApplySnoc<M>(isa: Isa<M>, mem: M, sq: seq<QueuedStore>, e: QueuedStore)
    ensures Apply(isa, mem, sq + [e]) == isa.store(Apply(isa, mem, sq), e.instr, e.addr, e.data)
  {
    assert (sq + [e])[..|sq|] == sq;
  }

  lemma StoresNone<M>(isa: Isa<M>, f: Flow<M>, w: Window)
    requires f.Valid() && w.Sized()
    ensures Apply(isa, f.mem, LeftStores(w, 0)) == FlowAt(isa, f, w.ops, 0).mem
  {
  }

  lemma FlowLast<M>(isa: Isa<M>, f: Flow<M>, ops: seq<Op>, n: nat)
    requires f.Valid() && 0 < n <= |ops|
    ensures FlowAt(isa, f, ops, n) == FlowStep(isa, FlowAt(isa, f, ops, n - 1), ops[n - 1])
  {
    hide FlowStep;
  }

  /** Once every store before n has left, the queued stores on top of memory are what program order says. */
  lemma {:induction false} StoresGiveMemory<M>(isa: Isa<M>, f: Flow<M>, w: Window, n: nat)
    requires f.Valid() && w.Sized() && n <= |w.ops|
    requires forall k :: 0 <= k < n && w.ops[k].instr.cls == Store ==>
               !w.phases[k].Waiting? && w.phases[k].out == Spec(isa, f, w.ops, k)
    ensures Apply(isa, f.mem, LeftStores(w, n)) == FlowAt(isa, f, w.ops, n).mem
  {
    hide Execute, WriteReg, FlowAt, Apply;
    if n == 0 {
      StoresNone(isa, f, w);
    } else {
      FlowLast(isa, f, w.ops, n);
      StoresGiveMemory(isa, f, w, n - 1);
      if HasLeft(w, n - 1) {
        ApplySnoc(isa, f.mem, LeftStores(w, n - 1), QueuedOf(w, n - 1));
      }
    }
  }

  lemma {:induction false} LeftStoresStop(w: Window, i: nat, n: nat)
    requires w.Sized() && i <= n <= |w.ops|
    requires forall k :: i <= k < n ==> !HasLeft(w, k)
    ensures LeftStores(w, n) == LeftStores(w, i)
  {
    if i < n {
      LeftStoresStop(w, i, n - 1);
    }
  }

  lemma {:induction false} LeftStoresSame(w: Window, w': Window, n: nat)
    requires n <= |w.ops| && n <= |w.phases| && n <= |w'.ops| && n <= |w'.phases| && w.head == w'.head
    requires forall k :: 0 <= k < n ==> HasLeft(w, k) == HasLeft(w', k) && (HasLeft(w, k) ==> QueuedOf(w, k) == QueuedOf(w', k))
    ensures LeftStores(w, n) == LeftStores(w', n)
  {
    if n > 0 {
      LeftStoresSame(w, w', n - 1);
    }
  }

  lemma {:induction false} LeftStoresDrop(w: Window, n: nat)
    requires w.Sized() && 0 < n <= |w.ops|
    ensures LeftStores(w, n) ==
            (if HasLeft(w, 0) then [QueuedOf(w, 0)] else []) +
            LeftStores(Window(TagAt(w.head, 1), w.ops[1..], w.phases[1..]), n - 1)
  {
    var w' := Window(TagAt(w.head, 1), w.ops[1..], w.phases[1..]);
    if n > 1 {
      LeftStoresDrop(w, n - 1);
      TagAtAfterRetire(w.head, 1, n - 2);
    } else {
      assert LeftStores(w, 0) == [] && LeftStores(w', 0) == [];
    }
  }

  lemma {:induction false} LeftStoresOlder(w: Window, n: nat, k: nat)
    requires w.Sized() && n <= |w.ops| && k < |LeftStores(w, n)|
    ensures Age(LeftStores(w, n)[k].tag, w.head) < n
  {
    if n > 0 {
      AgeOfTagAt(w.head, n - 1);
      if k < |LeftStores(w, n - 1)| {
        LeftStoresOlder(w, n - 1, k);
      }
    }
  }

  /** A store among the first n that has left is in the queue, behind exactly the older ones. */
  lemma {:induction false} LeftStoreAt(w: Window, i: nat, n: nat)
    requires i < n <= |w.ops| && n <= |w.phases| && HasLeft(w, i)
    ensures |LeftStores(w, i)| < |LeftStores(w, n)| && LeftStores(w, n)[|LeftStores(w, i)|] == QueuedOf(w, i)
  {
    if i < n - 1 {
      LeftStoreAt(w, i, n - 1);
    }
  }

  /** Every queued store is that of an instruction that has left. */
  lemma {:induction false} LeftStoreOf(w: Window, n: nat, k: nat)
    requires w.Sized() && n <= |w.ops| && k < |LeftStores(w, n)|
    ensures var i := w.IndexOf(LeftStores(w, n)[k].tag);
            i < n && HasLeft(w, i) && LeftStores(w, n)[k] == QueuedOf(w, i) && |LeftStores(w, i)| == k
  {
    if n > 0 {
      AgeOfTagAt(w.head, n - 1);
      if k < |LeftStores(w, n - 1)| {
        LeftStoreOf(w, n - 1, k);
      }
    }
  }

  lemma LeftStoresIncrease(w: Window, n: nat, k: nat, l: nat)
    requires w.Sized() && n <= |w.ops| && k < l < |LeftStores(w, n)|
    ensures w.IndexOf(LeftStores(w, n)[k].tag) < w.IndexOf(LeftStores(w, n)[l].tag)
  {
    LeftStoreOf(w, n, k);
    LeftStoreOf(w, n, l);
    var i, j := w.IndexOf(LeftStores(w, n)[k].tag), w.IndexOf(LeftStores(w, n)[l].tag);
    if j < i {
      LeftStoreAt(w, j, i);
    }
  }

  /** The entries a recovery keeps: up to the last one that is not younger than the branch. */
  function KeepOlder(sq: seq<QueuedStore>, branch: Tag, head: Tag): seq<QueuedStore> {
    if |sq| == 0 || !Younger(sq[|sq| - 1].tag, branch, head) then sq
    else KeepOlder(sq[..|sq| - 1], branch, head)
  }

  /** They are exactly the stores of the instructions up to the branch. */
  lemma {:induction false} KeepOlderStores(w: Window, b: nat, n: nat)
    requires w.Sized() && b < n <= |w.ops|
    ensures KeepOlder(LeftStores(w, n), w.TagOf(b), w.head) == LeftStores(w, b + 1)
  {
    AgeOfTagAt(w.head, b);
    var sq := LeftStores(w, n);
    if n == b + 1 {
      if |sq| > 0 {
        LeftStoresOlder(w, n, |sq| - 1);
      }
    } else {
      KeepOlderStores(w, b, n - 1);
      AgeOfTagAt(w.head, n - 1);
      if HasLeft(w, n - 1) {
        assert sq[..|sq| - 1] == LeftStores(w, n - 1);
      }
    }
  }

  // ---- branch history ----

  /** The direction an instruction contributed to the history: real if resolved, else predicted. */
  function Direction(op: Op, p: Phase): bool {
    if p.Done? && !p.out.exception then p.out.taken else op.predTaken
  }

  /** Directions of the conditional branches among the first n instructions in flight. */
  function Directions(ops: seq<Op>, phases: seq<Phase>, n: nat): seq<bool>
    requires n <= |ops| && n <= |phases|
  {
    if n == 0 then []
    else Directions(ops, phases, n - 1) + (if ops[n - 1].instr.conditional then [Direction(ops[n - 1], phases[n - 1])] else [])
  }

  function Predictions(q: seq<Op>, n: nat): seq<bool>
    requires n <= |q|
  {
    if n == 0 then [] else Predictions(q, n - 1) + (if q[n - 1].instr.conditional then [q[n - 1].predTaken] else [])
  }

  /** A history register takes a new direction in and drops its oldest one. */
  function Shift(h: History, d: bool): History {
    h[1..] + [d]
  }

  function ShiftAll(h: History, ds: seq<bool>): History {
    if |ds| == 0 then h else Shift(ShiftAll(h, ds[..|ds| - 1]), ds[|ds| - 1])
  }

  /** The register holds the last GHR_BITS directions of everything shifted so far. */
  lemma {:induction false} ShiftAllIsSuffix(h: History, ds: seq<bool>)
    ensures ShiftAll(h, ds) == (h + ds)[|ds|..]
  {
    if |ds| > 0 {
      ShiftAllIsSuffix(h, ds[..|ds| - 1]);
    }
  }

  lemma ShiftAllSnoc(h: History, ds: seq<bool>, d: bool)
    ensures ShiftAll(h, ds + [d]) == Shift(ShiftAll(h, ds), d)
  {
    assert (ds + [d])[..|ds|] == ds;
  }

  lemma {:induction false} ShiftAllAppend(h: History, a: seq<bool>, b: seq<bool>)
    ensures ShiftAll(h, a + b) == ShiftAll(ShiftAll(h, a), b)
  {
    if |b| == 0 {
      assert a + b == a;
    } else {
      ShiftAllAppend(h, a, b[..|b| - 1]);
      assert (a + b)[..|a + b| - 1] == a + b[..|b| - 1];
    }
  }

  lemma {:induction false} DirectionsSame(ops: seq<Op>, p: seq<Phase>, ops': seq<Op>, p': seq<Phase>, n: nat)
    requires n <= |ops| && n <= |p| && n <= |ops'| && n <= |p'|
    requires forall k :: 0 <= k < n ==> ops[k] == ops'[k] && (ops[k].instr.conditional ==> Direction(ops[k], p[k]) == Direction(ops[k], p'[k]))
    ensures Directions(ops, p, n) == Directions(ops', p', n)
  {
    if n > 0 {
      DirectionsSame(ops, p, ops', p', n - 1);
    }
  }

  lemma {:induction false} DirectionsDrop(ops: seq<Op>, p: seq<Phase>, n: nat)
    requires 0 < n <= |ops| && n <= |p|
    ensures Directions(ops, p, n) ==
            (if ops[0].instr.conditional then [Direction(ops[0], p[0])] else []) + Directions(ops[1..], p[1..], n - 1)
  {
    if n > 1 {
      DirectionsDrop(ops, p, n - 1);
    } else {
      assert Directions(ops, p, 0) == [] && Directions(ops[1..], p[1..], 0) == [];
    }
  }
}
