/** The sequential machine: any instruction set, executed one instruction at a time in program order. */
module Isa {
  import opened Prelude
  import opened OooPackage

  /** What an instruction is to the machine: which unit runs it, and whether it is a fault. */
  datatype Class = Alu | Branch | Load | Store | Mul | LongLatency | Fault

  /** A decoded instruction. `dst` 0 means no destination; `conditional` marks the branch opcode, which
      shifts the branch history even when the instruction then decodes as illegal. */
  datatype Instr = Instr(cls: Class, dst: Reg, src1: Reg, src2: Reg, conditional: bool, barrier: bool, ir: Word)

  /** The instruction set and the program, as arbitrary functions over an arbitrary memory type. */
  datatype Isa<!M> = Isa(
    fetch: Word -> Instr,
    fallThrough: Word -> Word,
    compute: (Instr, Word, Word, Word) -> Word,
    taken: (Instr, Word, Word, Word) -> bool,
    target: (Instr, Word, Word, Word) -> Word,
    address: (Instr, Word) -> Word,
    misaligned: (Instr, Word) -> bool,
    load: (M, Instr, Word) -> Word,
    store: (M, Instr, Word, Word) -> M,
    faultCause: (Instr, Word) -> Word,
    faultValue: (Instr, Word) -> Word,
    trapVector: Word)

  /** What decode guarantees: the branch opcode is a branch or illegal, and control flow ends a fetch bundle. */
  ghost predicate Decodes<M>(isa: Isa<M>) {
    forall pc: Word ::
      && (isa.fetch(pc).conditional ==> isa.fetch(pc).cls == Branch || isa.fetch(pc).cls == Fault)
      && (isa.fetch(pc).cls == Branch || isa.fetch(pc).conditional ==> isa.fetch(pc).barrier)
  }

  /** Everything executing one instruction decides. */
  datatype Outcome = Outcome(value: Word, taken: bool, next: Word, exception: bool, cause: Word, tval: Word,
                             addr: Word, data: Word)

  /** Executes one instruction on its operand values. The memory is read by loads only. */
  function Execute<M>(isa: Isa<M>, i: Instr, pc: Word, a: Word, b: Word, mem: M): Outcome {
    var next := isa.fallThrough(pc);
    match i.cls
    case Branch =>
      var taken := isa.taken(i, pc, a, b);
      Outcome(next, taken, if taken then isa.target(i, pc, a, b) else next, false, 0, 0, 0, 0)
    case Load =>
      var addr := isa.address(i, a);
      if isa.misaligned(i, addr) then Outcome(0, false, next, true, 4, addr, addr, 0)
      else Outcome(isa.load(mem, i, addr), false, next, false, 0, 0, addr, 0)
    case Store =>
      var addr := isa.address(i, a);
      if isa.misaligned(i, addr) then Outcome(0, false, next, true, 6, addr, addr, 0)
      else Outcome(0, false, next, false, 0, 0, addr, b)
    case Fault => Outcome(0, false, next, true, isa.faultCause(i, pc), isa.faultValue(i, pc), 0, 0)
    case _ => Outcome(isa.compute(i, pc, a, b), false, next, false, 0, 0, 0, 0)
  }

  /** Architectural state: the next instruction, the registers, the memory. */
  datatype Arch<M> = Arch(pc: Word, regs: seq<Word>, mem: M)
  {
    ghost predicate Valid() {
      |regs| == 64 && regs[0] == 0
    }
  }

  function WriteReg(regs: seq<Word>, dst: Reg, value: Word): seq<Word>
    requires |regs| == 64
  {
    if dst == 0 then regs else regs[dst := value]
  }

  function WriteMem<M>(isa: Isa<M>, mem: M, i: Instr, out: Outcome): M {
    if i.cls == Store && !out.exception then isa.store(mem, i, out.addr, out.data) else mem
  }

  /** What commit reports: an instruction with its results, a precise trap, or an interrupt. */
  datatype Event = Retired(pc: Word, out: Outcome) | Trapped(pc: Word, cause: Word, tval: Word) | Interrupted(pc: Word)

  function Current<M>(isa: Isa<M>, s: Arch<M>): Outcome
    requires s.Valid()
  {
    var i := isa.fetch(s.pc);
    Execute(isa, i, s.pc, s.regs[i.src1], s.regs[i.src2], s.mem)
  }

  /** One step of the sequential machine, if it produces exactly this event. */
  function Step<M>(isa: Isa<M>, s: Arch<M>, e: Event): (r: Option<Arch<M>>)
    requires s.Valid()
    ensures r.Some? ==> r.value.Valid()
  {
    var i := isa.fetch(s.pc);
    var out := Current(isa, s);
    match e
    case Retired(pc, o) =>
      if pc == s.pc && o == out && !out.exception
      then Some(Arch(out.next, WriteReg(s.regs, i.dst, out.value), WriteMem(isa, s.mem, i, out)))
      else None
    case Trapped(pc, cause, tval) =>
      if pc == s.pc && out.exception && cause == out.cause && tval == out.tval then Some(s.(pc := isa.trapVector)) else None
    case Interrupted(pc) =>
      if pc == s.pc then Some(s.(pc := isa.trapVector)) else None
  }

  /** Running the sequential machine through a whole list of events. */
  function Replay<M>(isa: Isa<M>, s: Arch<M>, events: seq<Event>): (r: Option<Arch<M>>)
    requires s.Valid()
    ensures r.Some? ==> r.value.Valid()
  {
    if events == [] then Some(s)
    else
      var k := |events| - 1;
      var before := Replay(isa, s, events[..k]);
      if before.None? then None else Step(isa, before.value, events[k])
  }

  lemma ReplayExtends<M>(isa: Isa<M>, s: Arch<M>, events: seq<Event>, e: Event)
    requires s.Valid() && Replay(isa, s, events).Some?
    ensures Replay(isa, s, events + [e]) == Step(isa, Replay(isa, s, events).value, e)
  {
    assert (events + [e])[..|events|] == events;
  }

  // ---- what each event means ----

  /** The event e, and the state s' after it, are what the instruction at s.pc calls for: said of the registers, the
      memory and the instruction set's own functions. */
  ghost predicate Means<M>(isa: Isa<M>, s: Arch<M>, e: Event, s': Arch<M>)
    requires s.Valid() && s'.Valid()
  {
    var i := isa.fetch(s.pc);
    var (a, b) := (s.regs[i.src1], s.regs[i.src2]);
    var addr := isa.address(i, a);
    var unaligned := (i.cls == Load || i.cls == Store) && isa.misaligned(i, addr);
    && e.pc == s.pc
    && match e
       case Interrupted(_) => s' == s.(pc := isa.trapVector)
       case Trapped(_, cause, tval) =>
         && s' == s.(pc := isa.trapVector)
         && (i.cls == Load ==> unaligned && cause == 4 && tval == addr)
         && (i.cls == Store ==> unaligned && cause == 6 && tval == addr)
         && (i.cls != Load && i.cls != Store ==> i.cls == Fault && cause == isa.faultCause(i, s.pc) && tval == isa.faultValue(i, s.pc))
       case Retired(_, out) =>
         && i.cls != Fault && !unaligned
         && s'.mem == (if i.cls == Store then isa.store(s.mem, i, addr, b) else s.mem)
         && s'.pc == (if i.cls == Branch && isa.taken(i, s.pc, a, b) then isa.target(i, s.pc, a, b) else isa.fallThrough(s.pc))
         && (forall r: Reg :: r == 0 || r != i.dst ==> s'.regs[r] == s.regs[r])
         && (i.dst != 0 ==> s'.regs[i.dst] == out.value)
         && out.next == s'.pc && (out.taken <==> i.cls == Branch && isa.taken(i, s.pc, a, b))
         && (i.cls == Load || i.cls == Store ==> out.addr == addr) && (i.cls == Store ==> out.data == b)
         && out.value == match i.cls {
                           case Load => isa.load(s.mem, i, addr)
                           case Store => 0
                           case Branch => isa.fallThrough(s.pc)
                           case _ => isa.compute(i, s.pc, a, b)
                         }
  }

  /** Every step of the sequential machine is one. */
  lemma StepMeans<M>(isa: Isa<M>, s: Arch<M>, e: Event)
    requires s.Valid() && Step(isa, s, e).Some?
    ensures Means(isa, s, e, Step(isa, s, e).value)
  {
  }
}
