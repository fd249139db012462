/** The back end as a step machine: each clock edge is one step of Next. What the stations select, what the
    arbiter grants, how much dispatches and what fetch predicts are inputs. */
module Core {
  import opened Prelude
  import opened OooPackage
  import opened Isa
  import opened Wakeup
  import opened Dataflow
  import RAT = RenameTable

  /** The machine's registers. `arch.pc` and `log` are history: nothing the machine decides depends on them. */
  datatype State<M> = State(
    arch: Arch<M>,                // committed registers and memory
    w: Window,                    // reorder buffer, stations and units: every instruction in flight
    rat: RAT.Table,
    used: seq<bool>,              // checkpoints held by unresolved branches, and by which
    owner: seq<Tag>,
    alu0: Option<Tag>,            // the issue-to-execute registers
    alu1: Option<Tag>,
    br: Option<Tag>,
    sq: seq<QueuedStore>,
    queue: seq<Op>,               // the fetch queue: if_id, then if1_if2
    fetchPc: Word,
    ghrSpec: History,
    ghrRetired: History,
    log: seq<Event>)
  {
    ghost predicate Shape() {
      && arch.Valid() && w.Sized() && rat.Valid() && |used| == |owner| == RAT.CKPTS
      && |queue| <= 2
    }

    function Flow(): Dataflow.Flow<M> {
      Dataflow.Flow(arch.regs, arch.mem)
    }
  }

  /** A prediction for one fetched instruction; any guess is allowed. */
  datatype Guess = Guess(taken: bool, target: Word)

  /** What the stations select: indices into the window. */
  datatype Issue = Issue(alu0: Option<nat>, alu1: Option<nat>, br: Option<nat>, mem: Option<nat>, others: set<nat>)
  {
    predicate Selects(i: nat) {
      alu0 == Some(i) || alu1 == Some(i) || br == Some(i) || mem == Some(i) || i in others
    }
  }

  /** Everything a cycle leaves to unit latencies, predictors, the memory system and the outside. */
  datatype Inputs = Inputs(
    interrupt: bool,
    dispatch: nat,
    bus0: Option<Tag>, bus1: Option<Tag>, bus2: Option<Tag>,   // shared-unit results granted a free bus
    issue: Issue,
    storeBufferFull: bool,
    fetch: seq<Guess>)

  // ---- commit-time flush ----

  predicate TakesTrap<M>(s: State<M>) {
    |s.w.phases| > 0 && s.w.phases[0].Done? && s.w.phases[0].out.exception
  }

  predicate TakesInterrupt<M>(s: State<M>, x: Inputs) {
    !TakesTrap(s) && |s.w.ops| == 0 && x.interrupt && |s.queue| > 0
  }

  function Flush<M>(isa: Isa<M>, s: State<M>, e: Event): (s': State<M>)
    requires s.Shape()
    ensures s'.Shape()
  {
    State(s.arch.(pc := isa.trapVector), Window(0, [], []), RAT.FlushTable(s.rat), Repeat(false, RAT.CKPTS), s.owner,
          None, None, None, [], [], isa.trapVector, s.ghrRetired, s.ghrRetired, s.log + [e])
  }

  // ---- branch recovery ----

  /** The prediction differs from the outcome, as the branch unit compares them. */
  predicate Mispredicted(op: Op, out: Outcome) {
    op.predTaken != out.taken || (out.taken && op.predTarget != out.next)
  }

  predicate Recovers<M>(s: State<M>) {
    s.br.Some? && var b := s.w.IndexOf(s.br.value);
    b < |s.w.ops| && b < |s.w.phases| && s.w.phases[b].Executing? && Mispredicted(s.w.ops[b], s.w.phases[b].out)
  }

  function KeepUnlessYounger(t: Option<Tag>, branch: Tag, head: Tag): Option<Tag> {
    if t.Some? && Younger(t.value, branch, head) then None else t
  }

  /** Checkpoints after the branch `tag` in checkpoint k recovers: its own and those of younger branches free. */
  function ReleaseYounger(used: seq<bool>, owner: seq<Tag>, k: nat, tag: Tag, head: Tag): (u: seq<bool>)
    requires |used| == |owner|
    ensures |u| == |used|
    ensures forall i :: 0 <= i < |used| ==> u[i] == (used[i] && i != k && !Younger(owner[i], tag, head))
  {
    if used == [] then []
    else ReleaseYounger(used[..|used| - 1], owner[..|used| - 1], k, tag, head) +
         [used[|used| - 1] && |used| - 1 != k && !Younger(owner[|used| - 1], tag, head)]
  }

  function Recover<M>(isa: Isa<M>, s: State<M>): (s': State<M>)
    requires s.Shape() && Recovers(s)
    ensures s'.Shape()
  {
    var tag := s.br.value;
    var b := s.w.IndexOf(tag);
    var op, out := s.w.ops[b], s.w.phases[b].out;
    s.(w := Window(s.w.head, s.w.ops[..b + 1], s.w.phases[..b] + [Done(out)]),
       rat := RAT.Restore(s.rat, op.ckpt),
       used := ReleaseYounger(s.used, s.owner, op.ckpt, tag, s.w.head),
       alu0 := KeepUnlessYounger(s.alu0, tag, s.w.head),
       alu1 := KeepUnlessYounger(s.alu1, tag, s.w.head),
       br := None,
       sq := KeepOlder(s.sq, tag, s.w.head),
       queue := [],
       fetchPc := out.next,
       ghrSpec := if op.instr.conditional then Shift(op.ghr, out.taken) else op.ghr)
  }

  // ---- dispatch ----

  /** Operand lookup: register 0, the committed value, a finished reorder-buffer value, or a pending tag. */
  function Lookup<M>(s: State<M>, r: Reg): Operand
    requires s.Shape()
  {
    var m := s.rat.current;
    if r == 0 then Operand(true, false, 0, 0)
    else if !m.busy[r] then Operand(true, false, 0, s.arch.regs[r])
    else
      var t := m.tags[r];
      var j := s.w.IndexOf(t);
      if j < |s.w.phases| && s.w.phases[j].Done? then Operand(true, false, t, s.w.phases[j].out.value)
      else Operand(false, false, t, 0)
  }

  /** The lowest free checkpoint; CKPTS if none is free. */
  function FreeCkpt(used: seq<bool>): (k: nat)
    ensures k <= |used| && (k < |used| ==> !used[k]) && forall i :: 0 <= i < k ==> used[i]
  {
    if used == [] || !used[0] then 0 else 1 + FreeCkpt(used[1..])
  }

  predicate CanDispatch<M>(s: State<M>) {
    |s.queue| > 0 && |s.w.ops| < ROB_SIZE && (s.queue[0].instr.cls == Branch ==> FreeCkpt(s.used) < |s.used|)
  }

  /** The oldest queued instruction enters the reorder buffer. A fault is finished at once; a branch saves
      the map as it is after its own rename. */
  function Dispatch<M>(isa: Isa<M>, s: State<M>): (s': State<M>)
    requires s.Shape() && CanDispatch(s)
    ensures s'.Shape() && forall i: nat :: Completed(s, i) ==> Completed(s', i)
  {
    var op, i := s.queue[0], |s.w.ops|;
    var tag := s.w.TagOf(i);
    var k: RAT.Ckpt := if FreeCkpt(s.used) < RAT.CKPTS then FreeCkpt(s.used) else 0;
    var phase :=
      if op.instr.cls == Fault then Done(Execute(isa, op.instr, op.pc, 0, 0, s.arch.mem))
      else Waiting(Lookup(s, op.instr.src1), Lookup(s, op.instr.src2));
    var renamed := RAT.SetCurrent(s.rat, RAT.Rename(op.instr.dst, tag));
    var saves := op.instr.cls == Branch;
    s.(w := Window(s.w.head, s.w.ops + [op.(ckpt := k)], s.w.phases + [phase]),
       rat := if saves then RAT.Save(renamed, k) else renamed,
       used := if saves then s.used[k := true] else s.used,
       owner := if saves then s.owner[k := tag] else s.owner,
       queue := s.queue[1..])
  }

  /** A bundle of n; an instruction that faults at decode ends its bundle and is never its second. */
  ghost predicate CanDispatchMany<M>(isa: Isa<M>, s: State<M>, n: nat)
    requires s.Shape()
  {
    n <= 2 && (n > 0 ==> CanDispatch(s)) &&
    (n == 2 ==> s.queue[0].instr.cls != Fault && |s.queue| == 2 && s.queue[1].instr.cls != Fault && CanDispatch(Dispatch(isa, s)))
  }

  function DispatchMany<M>(isa: Isa<M>, s: State<M>, n: nat): (s': State<M>)
    requires s.Shape() && CanDispatchMany(isa, s, n)
    ensures s'.Shape() && forall i: nat :: Completed(s, i) ==> Completed(s', i)
  {
    if n == 0 then s else if n == 1 then Dispatch(isa, s) else Dispatch(isa, Dispatch(isa, s))
  }

  // ---- broadcast, wake-up and issue ----

  /** The result tag t is executing, as a bus carries it. */
  function Broadcast(w: Window, t: Option<Tag>): Cdb {
    if t.Some? && w.IndexOf(t.value) < |w.phases| && w.phases[w.IndexOf(t.value)].Executing?
    then Cdb(true, t.value, w.phases[w.IndexOf(t.value)].out.value)
    else NO_CDB
  }

  /** Each bus carries its owner unit's result when that executes, else a granted request. */
  function BusesOf<M>(s: State<M>, x: Inputs): Buses {
    Buses(Broadcast(s.w, if s.alu0.Some? then s.alu0 else x.bus0),
          Broadcast(s.w, if s.alu1.Some? then s.alu1 else x.bus1),
          Broadcast(s.w, if s.br.Some? then s.br else x.bus2))
  }

  function TagOfSelected<M>(s: State<M>, i: Option<nat>): Option<Tag> {
    if i.Some? then Some(s.w.TagOf(i.value)) else None
  }

  function WakesOf<M>(s: State<M>, x: Inputs): TagWakes {
    TagWakes(TagOfSelected(s, x.issue.alu0), TagOfSelected(s, x.issue.alu1))
  }

  /** The stations built to accept tag-only wake-ups. */
  predicate SpecStation(c: Class) {
    c == Alu || c == Branch || c == Mul
  }

  /** What one cycle does to one instruction in flight. */
  function AdvanceOne<M>(isa: Isa<M>, s: State<M>, x: Inputs, i: nat): Phase
    requires i < |s.w.ops| && i < |s.w.phases|
  {
    var op, b, spec := s.w.ops[i], BusesOf(s, x), SpecStation(s.w.ops[i].instr.cls);
    match s.w.phases[i]
    case Waiting(o1, o2) =>
      if x.issue.Selects(i)
      then Executing(Execute(isa, op.instr, op.pc, Resolve(o1, b, spec), Resolve(o2, b, spec), Apply(isa, s.arch.mem, s.sq)))
      else Waiting(AllWakes(o1, b, spec, WakesOf(s, x)), AllWakes(o2, b, spec, WakesOf(s, x)))
    case Executing(out) => if b.Carries(s.w.TagOf(i)) then Done(out) else Executing(out)
    case Done(out) => Done(out)
  }

  function AdvanceAll<M>(isa: Isa<M>, s: State<M>, x: Inputs, n: nat): (ps: seq<Phase>)
    requires n <= |s.w.ops| && n <= |s.w.phases|
    ensures |ps| == n && forall i :: 0 <= i < n ==> ps[i] == AdvanceOne(isa, s, x, i)
  {
    if n == 0 then [] else AdvanceAll(isa, s, x, n - 1) + [AdvanceOne(isa, s, x, n - 1)]
  }

  /** A store leaving the memory queue without a fault enters the store queue. */
  function Enqueue<M>(isa: Isa<M>, s: State<M>, x: Inputs): seq<QueuedStore>
    requires s.w.Sized()
  {
    if x.issue.mem.Some? && x.issue.mem.value < |s.w.ops| && s.w.ops[x.issue.mem.value].instr.cls == Store then
      var i := x.issue.mem.value;
      var p := AdvanceOne(isa, s, x, i);
      if p.Executing? && !p.out.exception
      then s.sq + [QueuedStore(s.w.TagOf(i), s.w.ops[i].instr, p.out.addr, p.out.data)]
      else s.sq
    else s.sq
  }

  function Advance<M>(isa: Isa<M>, s: State<M>, x: Inputs): (s': State<M>)
    requires s.Shape()
    ensures s'.Shape()
    ensures s'.w.ops == s.w.ops && forall i: nat :: Completed(s, i) ==> Completed(s', i)
  {
    var resolved := s.br.Some? && s.w.IndexOf(s.br.value) < |s.w.ops|;
    s.(w := s.w.(phases := AdvanceAll(isa, s, x, |s.w.ops|)),
       used := if resolved then s.used[s.w.ops[s.w.IndexOf(s.br.value)].ckpt := false] else s.used,
       alu0 := TagOfSelected(s, x.issue.alu0),
       alu1 := TagOfSelected(s, x.issue.alu1),
       br := TagOfSelected(s, x.issue.br),
       sq := Enqueue(isa, s, x))
  }

  ghost predicate ReadyIn<M>(s: State<M>, i: nat, cs: set<Class>) {
    i < |s.w.ops| && i < |s.w.phases| && s.w.ops[i].instr.cls in cs &&
    s.w.phases[i].Waiting? && s.w.phases[i].op1.ready && s.w.phases[i].op2.ready
  }

  /** The memory queue is in order: only its oldest entry is ever offered. */
  ghost predicate OldestMem<M>(s: State<M>, i: nat)
    requires i < |s.w.ops| && s.w.Sized()
  {
    forall k :: 0 <= k < i && s.w.ops[k].IsMem() ==> !s.w.phases[k].Waiting?
  }

  ghost predicate Grantable<M>(s: State<M>, owner: Option<Tag>, t: Option<Tag>) {
    t.Some? ==> owner.None? && s.w.IndexOf(t.value) < |s.w.ops| && s.w.ops[s.w.IndexOf(t.value)].instr.cls in {Load, Store, Mul, LongLatency}
  }

  /** What the stations and the arbiter may do in state s, which started the cycle as s0. */
  ghost predicate CanAdvance<M>(s0: State<M>, s: State<M>, x: Inputs)
    requires s.Shape()
  {
    && Grantable(s, s0.alu0, x.bus0) && Grantable(s, s0.alu1, x.bus1) && Grantable(s, s0.br, x.bus2)
    && (forall i: nat :: x.issue.Selects(i) ==> i < |s0.w.ops| && i < |s.w.ops|)
    && (x.issue.alu0.Some? ==> ReadyIn(s, x.issue.alu0.value, {Alu}))
    && (x.issue.alu1.Some? ==> x.issue.alu0.Some? && x.issue.alu1 != x.issue.alu0 && ReadyIn(s, x.issue.alu1.value, {Alu}))
    && (x.issue.br.Some? ==> ReadyIn(s, x.issue.br.value, {Branch}))
    && (x.issue.mem.Some? ==> ReadyIn(s, x.issue.mem.value, {Load, Store}) && OldestMem(s, x.issue.mem.value))
    && (forall i :: i in x.issue.others ==> ReadyIn(s, i, {Mul, LongLatency}))
  }

  // ---- commit ----

  predicate Completed<M>(s: State<M>, i: nat) {
    i < |s.w.ops| && i < |s.w.phases| && s.w.phases[i].Done? && !s.w.phases[i].out.exception
  }

  /** How many instructions retire: the second one only if it is simple and at most one of the two is a store. */
  function RetireCount<M>(s: State<M>, full: bool): (n: nat)
    ensures n <= 2 && forall i :: 0 <= i < n ==> Completed(s, i)
  {
    if !Completed(s, 0) || (s.w.ops[0].instr.cls == Store && full) then 0
    else if Completed(s, 1) && !s.w.ops[1].Control() &&
            !(s.w.ops[1].instr.cls == Store && (s.w.ops[0].instr.cls == Store || full)) then 2
    else 1
  }

  /** The oldest instruction commits: registers, memory through the oldest store-queue entry, history. */
  function Retire<M>(isa: Isa<M>, s: State<M>): (s': State<M>)
    requires s.Shape() && Completed(s, 0)
    ensures s'.Shape() && (Completed(s, 1) ==> Completed(s', 0))
  {
    var op, out := s.w.ops[0], s.w.phases[0].out;
    var stores := op.instr.cls == Store && |s.sq| > 0;
    s.(arch := Arch(out.next, WriteReg(s.arch.regs, op.instr.dst, out.value),
                    if stores then isa.store(s.arch.mem, s.sq[0].instr, s.sq[0].addr, s.sq[0].data) else s.arch.mem),
       w := Window(TagAt(s.w.head, 1), s.w.ops[1..], s.w.phases[1..]),
       rat := RAT.ClearAll(s.rat, RAT.Rename(op.instr.dst, s.w.head)),
       sq := if stores then s.sq[1..] else s.sq,
       ghrRetired := if op.instr.conditional then Shift(s.ghrRetired, out.taken) else s.ghrRetired,
       log := s.log + [Retired(op.pc, out)])
  }

  function RetireMany<M>(isa: Isa<M>, s: State<M>, n: nat): (s': State<M>)
    requires s.Shape() && n <= 2 && forall i :: 0 <= i < n ==> Completed(s, i)
    ensures s'.Shape()
  {
    if n == 0 then s else if n == 1 then Retire(isa, s) else Retire(isa, Retire(isa, s))
  }

  // ---- fetch ----

  function MakePacket<M>(isa: Isa<M>, pc: Word, g: Guess, ghr: History): Op {
    var instr := isa.fetch(pc);
    Op(pc, instr, g.taken && (instr.cls == Branch || instr.conditional), g.target, ghr, 0)
  }

  /** A packet that may be followed by another one in its bundle. */
  predicate LetsFollow(first: Op, second: Op) {
    !first.instr.barrier || (first.instr.conditional && !first.predTaken && !second.instr.barrier)
  }

  function Shifted(h: History, p: Op): History {
    if p.instr.conditional then Shift(h, p.predTaken) else h
  }

  /** Up to two packets enter the queue: into free space, one bundle at a time, and at most one history shift. */
  function Fetch<M>(isa: Isa<M>, s: State<M>, gs: seq<Guess>): (s': State<M>)
    requires s.Shape()
    ensures s'.Shape()
  {
    if |gs| == 0 then s
    else
      var p0 := MakePacket(isa, s.fetchPc, gs[0], s.ghrSpec);
      if |s.queue| == 0 then
        var one := s.(queue := [p0], fetchPc := p0.PredNext(isa), ghrSpec := Shifted(s.ghrSpec, p0));
        if |gs| == 1 then one
        else
          var p1 := MakePacket(isa, isa.fallThrough(s.fetchPc), gs[1], s.ghrSpec);
          if LetsFollow(p0, p1)
          then s.(queue := [p0, p1], fetchPc := p1.PredNext(isa),
                  ghrSpec := if p1.instr.conditional then Shifted(s.ghrSpec, p1) else Shifted(s.ghrSpec, p0))
          else one
      else if |s.queue| == 1 && LetsFollow(s.queue[0], p0) then
        s.(queue := s.queue + [p0], fetchPc := p0.PredNext(isa), ghrSpec := Shifted(s.ghrSpec, p0))
      else s
  }

  // ---- one clock edge ----

  ghost predicate Allowed<M>(isa: Isa<M>, s: State<M>, x: Inputs) {
    && s.Shape() && (x.interrupt ==> x.dispatch == 0)
    && (!TakesTrap(s) && !TakesInterrupt(s, x) ==>
          if Recovers(s) then
            x.dispatch == 0 && x.issue.mem.None? && CanAdvance(s, Recover(isa, s), x)
          else
            CanDispatchMany(isa, s, x.dispatch) && CanAdvance(s, DispatchMany(isa, s, x.dispatch), x))
  }

  /** The state after the front half of the cycle: a recovery, or a dispatch. */
  function FrontHalf<M>(isa: Isa<M>, s: State<M>, x: Inputs): (s': State<M>)
    requires Allowed(isa, s, x) && !TakesTrap(s) && !TakesInterrupt(s, x)
    ensures s'.Shape() && forall i: nat :: i < RetireCount(s, x.storeBufferFull) ==> Completed(s', i)
  {
    if Recovers(s) then Recover(isa, s) else DispatchMany(isa, s, x.dispatch)
  }

  function BackHalf<M>(isa: Isa<M>, s: State<M>, x: Inputs, n: nat): (s': State<M>)
    requires s.Shape() && n <= 2 && forall i :: 0 <= i < n ==> Completed(s, i)
    ensures s'.Shape()
  {
    var s1 := Advance(isa, s, x);
    RetireMany(isa, s1, n)
  }

  /** One clock edge. What commits and what dispatches is decided by the registers as they were before it. */
  function Next<M>(isa: Isa<M>, s: State<M>, x: Inputs): (s': State<M>)
    requires Allowed(isa, s, x)
    ensures s'.Shape()
  {
    if TakesTrap(s) then Flush(isa, s, Trapped(s.w.ops[0].pc, s.w.phases[0].out.cause, s.w.phases[0].out.tval))
    else if TakesInterrupt(s, x) then Flush(isa, s, Interrupted(s.queue[0].pc))
    else
      var s' := BackHalf(isa, FrontHalf(isa, s, x), x, RetireCount(s, x.storeBufferFull));
      if Recovers(s) then s' else Fetch(isa, s', x.fetch)
  }
}
