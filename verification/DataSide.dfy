/** The data side as a step machine. Atomics do not run, and the optional second-level cache is absent. */
module DataSide {
  import opened Prelude
  import opened Bytes
  import opened StoreBuffer

  const SQ_ENTRIES := 4
  const STOREBUF_DEPTH := 4

  /** A store that has left the memory queue. `stamp` is its place in program order: the order the tags and
      the reorder-buffer head give. */
  datatype Queued = Queued(stamp: nat, addr: Addr, size: Size, data: Lanes)
  {
    function AsStore(): Store {
      Store(addr, data, ByteMask(size, addr.byte))
    }
  }

  /** A load in the load stage. `older` is history: every older store, in program order, when it left the queue. */
  datatype Load = Load(squashed: bool, stamp: nat, addr: Addr, size: Size, unsigned: bool, older: seq<Queued>)
  {
    function Mask(): Mask {
      ByteMask(size, addr.byte)
    }
  }

  /** The output buffer's contents. */
  datatype Result = StoreDone(stamp: nat) | Faulted(stamp: nat) | LoadDone(stamp: nat, value: Lanes, load: Load)

  /** The operation offered by the in-order memory queue. */
  datatype HeadOp = HeadStore(q: Queued) | HeadLoad(stamp: nat, addr: Addr, size: Size, unsigned: bool)
  {
    function Stamp(): nat {
      if HeadStore? then q.stamp else stamp
    }

    function Where(): Addr {
      if HeadStore? then q.addr else addr
    }

    function Width(): Size {
      if HeadStore? then q.size else size
    }

    predicate IsMisaligned() {
      Misaligned(Width(), Where().byte)
    }
  }

  datatype Line = Line(valid: bool, tag: nat, words: Words)

  /** A replacement policy: its state's victim, and what using a line does to it. Any policy is allowed. */
  datatype Policy<!P> = Policy(victim: P -> nat, touch: (P, nat) -> P)

  datatype State<P> = State(
    sq: seq<Queued>,
    ld: Option<Load>,
    out: Option<Result>,
    sb: seq<Store>,
    lines: seq<Line>,
    pol: P,
    fill: bool,                   // refill controller
    count: nat,
    uncachedWait: bool,
    ram: seq<Words>,              // cacheable memory, line by line
    readReg: Lanes,               // the memory's registered read
    committed: seq<Queued>,       // history: every committed store,
    writes: seq<Store>,           // every store written to memory or a device,
    dropped: set<nat>,            // the stamps of every store squashed or flushed,
    nextStamp: nat)               // and the next unused place in program order
  {
    predicate Cacheable(a: Addr) {
      a.line < |ram|
    }
  }

  datatype Inputs = Inputs(flush: bool, squash: Option<nat>, commit: bool, grant: bool, head: Option<HeadOp>, device: Lanes)

  function AsStores(qs: seq<Queued>): (ss: seq<Store>)
    ensures |ss| == |qs| && forall i :: 0 <= i < |qs| ==> ss[i] == qs[i].AsStore()
  {
    if |qs| == 0 then [] else AsStores(qs[..|qs| - 1]) + [qs[|qs| - 1].AsStore()]
  }

  // ---- the tag array ----

  /** The line a lookup reports: the last one that matches. */
  function HitLine(lines: seq<Line>, tag: nat): (l: Option<nat>)
    ensures l.Some? ==> l.value < |lines| && lines[l.value].valid && lines[l.value].tag == tag
    ensures l.None? ==> forall i :: 0 <= i < |lines| ==> !(lines[i].valid && lines[i].tag == tag)
  {
    if |lines| == 0 then None
    else if lines[|lines| - 1].valid && lines[|lines| - 1].tag == tag then Some(|lines| - 1)
    else HitLine(lines[..|lines| - 1], tag)
  }

  /** The lowest invalid line, or the number of lines. */
  function FirstInvalid(lines: seq<Line>): (l: nat)
    ensures l <= |lines| && (l < |lines| ==> !lines[l].valid) && forall i :: 0 <= i < l ==> lines[i].valid
  {
    if |lines| == 0 || !lines[0].valid then 0 else 1 + FirstInvalid(lines[1..])
  }

  function Victim<P>(p: Policy<P>, lines: seq<Line>, pol: P): nat {
    if FirstInvalid(lines) < |lines| then FirstInvalid(lines) else p.victim(pol)
  }

  // ---- combinational signals ----

  /** The store buffer's answer to the load stage. */
  function Forwarded<P>(s: State<P>): Found {
    if s.ld.Some? && s.Cacheable(s.ld.value.addr) then Search(s.sb, s.ld.value.addr, s.ld.value.Mask()) else Miss
  }

  predicate LoadHits<P>(s: State<P>) {
    s.ld.Some? && s.Cacheable(s.ld.value.addr) && HitLine(s.lines, s.ld.value.addr.line).Some?
  }

  predicate CachedMiss<P>(s: State<P>) {
    s.ld.Some? && s.Cacheable(s.ld.value.addr) && !LoadHits(s) && Forwarded(s).Miss?
  }

  predicate UncachedLoad<P>(s: State<P>) {
    s.ld.Some? && !s.Cacheable(s.ld.value.addr)
  }

  predicate StartFill<P>(s: State<P>) {
    CachedMiss(s) && !s.fill && !s.uncachedWait && s.sb == []
  }

  predicate StartUncached<P>(s: State<P>) {
    UncachedLoad(s) && !s.fill && !s.uncachedWait && s.sb == []
  }

  predicate Drains<P>(s: State<P>) {
    s.sb != [] && !s.fill && !s.uncachedWait
  }

  predicate Stalls<P>(s: State<P>) {
    || StartFill(s) || s.fill
    || Forwarded(s).Conflict? || ((CachedMiss(s) || UncachedLoad(s)) && s.sb != []) || StartUncached(s)
  }

  predicate LoadDoneNow<P>(s: State<P>) {
    s.ld.Some? && !Stalls(s)
  }

  /** Where a finishing load's value comes from: the store buffer, the cache, or the memory port. */
  function LoadResult<P>(s: State<P>, x: Inputs): Lanes
    requires s.ld.Some?
  {
    var ld := s.ld.value;
    var l := HitLine(s.lines, ld.addr.line);
    if Forwarded(s).Hit? then FormatLoad(Forwarded(s).word, ld.size, ld.unsigned, ld.addr.byte)
    else if s.Cacheable(ld.addr) && l.Some?
    then FormatLoad(s.lines[l.value].words[ld.addr.word], ld.size, ld.unsigned, ld.addr.byte)
    else x.device
  }

  predicate OutFree<P>(s: State<P>, x: Inputs) {
    s.out.None? || x.grant
  }

  predicate LoadClaims<P>(s: State<P>, x: Inputs) {
    LoadDoneNow(s) && !s.ld.value.squashed && OutFree(s, x)
  }

  predicate HeadOutFree<P>(s: State<P>, x: Inputs) {
    OutFree(s, x) && !LoadClaims(s, x)
  }

  /** The store queue's answer to the load at the queue head: the youngest overlapping store decides. */
  function QueueForward<P>(s: State<P>, op: HeadOp): Found
    requires op.HeadLoad?
  {
    Search(AsStores(s.sq), op.addr, ByteMask(op.size, op.addr.byte))
  }

  predicate HeadTaken<P>(s: State<P>, x: Inputs) {
    x.head.Some? && x.squash.None? &&
    var op := x.head.value;
    if op.HeadStore? then HeadOutFree(s, x) && (op.IsMisaligned() || |s.sq| < SQ_ENTRIES)
    else if op.IsMisaligned() then HeadOutFree(s, x)
    else if !s.Cacheable(op.addr) then s.sq == [] && s.ld.None?
    else if QueueForward(s, op).Hit? then HeadOutFree(s, x)
    else QueueForward(s, op).Miss? && s.ld.None?
  }

  // ---- next state ----

  function SetWord(ws: Words, i: WordIndex, w: Lanes): Words {
    ws[i := w]
  }

  function MemoryNext<P>(s: State<P>): seq<Words> {
    if Drains(s) && s.Cacheable(s.sb[0].addr) then
      var a := s.sb[0].addr;
      s.ram[a.line := SetWord(s.ram[a.line], a.word, MemoryWrite(s.ram[a.line][a.word], s.sb[0].data, SizeFromMask(s.sb[0].mask), a.byte))]
    else s.ram
  }

  /** The registered read: the first word of the line when a refill starts, then the next one each beat. */
  function ReadNext<P>(s: State<P>): Lanes {
    if s.ld.Some? && s.Cacheable(s.ld.value.addr) then
      var words := s.ram[s.ld.value.addr.line];
      if StartFill(s) then words[0]
      else if s.fill && s.count < 8 then words[s.count]
      else s.readReg
    else s.readReg
  }

  /** One refill beat into the victim line; the last one publishes the tag. */
  function Beat<P>(p: Policy<P>, s: State<P>): seq<Line> {
    var v := Victim(p, s.lines, s.pol);
    if s.ld.Some? && v < |s.lines| && 1 <= s.count <= 8 then
      var words := SetWord(s.lines[v].words, s.count - 1, s.readReg);
      s.lines[v := if s.count == 8 then Line(true, s.ld.value.addr.line, words) else s.lines[v].(words := words)]
    else s.lines
  }

  /** A drained store merges into the line that holds its word, if one does. */
  function DrainLine<P>(s: State<P>): seq<Line>
    requires s.sb != []
  {
    var st := s.sb[0];
    var l := HitLine(s.lines, st.addr.line);
    if s.Cacheable(st.addr) && l.Some? then
      var words := s.lines[l.value].words;
      s.lines[l.value := s.lines[l.value].(words := SetWord(words, st.addr.word, Merge(words[st.addr.word], st.data, st.mask)))]
    else s.lines
  }

  function LinesNext<P>(p: Policy<P>, s: State<P>): seq<Line> {
    if s.fill then Beat(p, s) else if Drains(s) then DrainLine(s) else s.lines
  }

  function PolicyNext<P>(p: Policy<P>, s: State<P>): P {
    if s.fill then (if s.count == 8 then p.touch(s.pol, Victim(p, s.lines, s.pol)) else s.pol)
    else if Drains(s) && s.Cacheable(s.sb[0].addr) && HitLine(s.lines, s.sb[0].addr.line).Some? then
      p.touch(s.pol, HitLine(s.lines, s.sb[0].addr.line).value)
    else if LoadHits(s) then p.touch(s.pol, HitLine(s.lines, s.ld.value.addr.line).value)
    else s.pol
  }

  /** The refill controller's registers: count runs from 1 to 8 through a refill. */
  function FillNext<P>(s: State<P>): (bool, nat) {
    if s.fill then (if s.count == 8 then (false, 0) else (true, s.count + 1))
    else if StartFill(s) then (true, 1)
    else (false, 0)
  }

  function KeepStamps(sq: seq<Queued>, branch: nat): (r: seq<Queued>)
    ensures |r| <= |sq| && r == sq[..|r|]
  {
    if |sq| == 0 || sq[|sq| - 1].stamp <= branch then sq else KeepStamps(sq[..|sq| - 1], branch)
  }

  function Stamps(sq: seq<Queued>): set<nat> {
    set q | q in sq :: q.stamp
  }

  /** The store queue: a commit takes the oldest, the head may add one, a recovery keeps the older prefix, a
      flush drops everything. */
  function QueueNext<P>(s: State<P>, x: Inputs): seq<Queued> {
    var kept := if x.flush then [] else if x.squash.Some? then KeepStamps(s.sq, x.squash.value) else s.sq;
    var popped := if x.commit && |kept| > 0 then kept[1..] else kept;
    if !x.flush && HeadTaken(s, x) && x.head.value.HeadStore? && !x.head.value.IsMisaligned() then popped + [x.head.value.q] else popped
  }

  function DroppedNext<P>(s: State<P>, x: Inputs): set<nat> {
    s.dropped + (if x.flush then Stamps(s.sq)
                 else if x.squash.Some? then Stamps(s.sq[|KeepStamps(s.sq, x.squash.value)|..])
                 else {})
  }

  /** The load stage: finishes, is squashed in place, or takes the load at the queue head. */
  function LoadNext<P>(s: State<P>, x: Inputs): Option<Load> {
    if x.flush then
      if s.ld.None? || LoadDoneNow(s) then None else Some(s.ld.value.(squashed := true))
    else if s.ld.Some? then
      if LoadDoneNow(s) && (s.ld.value.squashed || OutFree(s, x)) then None
      else if x.squash.Some? && s.ld.value.stamp > x.squash.value then
        if LoadDoneNow(s) then None else Some(s.ld.value.(squashed := true))
      else s.ld
    else if HeadTaken(s, x) && x.head.value.HeadLoad? && !x.head.value.IsMisaligned() &&
            !(s.Cacheable(x.head.value.addr) && QueueForward(s, x.head.value).Hit?) then
      Some(IssuedLoad(s, x.head.value))
    else None
  }

  function IssuedLoad<P>(s: State<P>, op: HeadOp): Load
    requires op.HeadLoad?
  {
    Load(false, op.stamp, op.addr, op.size, op.unsigned, s.committed + s.sq)
  }

  /** The value the store queue forwards: the youngest overlapping store's data, shifted into place. */
  function QueueValue<P>(s: State<P>, op: HeadOp): Lanes
    requires op.HeadLoad?
  {
    var j := YoungestOverlap(AsStores(s.sq), op.addr, ByteMask(op.size, op.addr.byte));
    if j < 0 then ZERO else ForwardValue(s.sq[j].data, s.sq[j].addr.byte, op.size, op.unsigned, op.addr.byte)
  }

  /** What the queue head puts into the output buffer, if it does. */
  function HeadResult<P>(s: State<P>, x: Inputs): Option<Result> {
    if !HeadTaken(s, x) then None
    else
      var op := x.head.value;
      if op.IsMisaligned() then Some(Faulted(op.Stamp()))
      else if op.HeadStore? then Some(StoreDone(op.q.stamp))
      else if s.Cacheable(op.addr) && QueueForward(s, op).Hit? then Some(LoadDone(op.stamp, QueueValue(s, op), IssuedLoad(s, op)))
      else None
  }

  function OutNext<P>(s: State<P>, x: Inputs): Option<Result> {
    if x.flush then None
    else if LoadClaims(s, x) then
      if x.squash.Some? && s.ld.value.stamp > x.squash.value then None
      else Some(LoadDone(s.ld.value.stamp, LoadResult(s, x), s.ld.value))
    else if HeadResult(s, x).Some? then HeadResult(s, x)
    else if x.grant then None
    else if s.out.Some? && x.squash.Some? && s.out.value.stamp > x.squash.value then None
    else s.out
  }

  /** What the rest of the core promises: a store commits only when it is the oldest one, there is room for it,
      and no older load is still under way; a flush commits nothing; program order is the order operations
      leave the memory queue in. */
  ghost predicate Allowed<P>(s: State<P>, x: Inputs) {
    && (x.commit ==>
          && s.sq != [] && |s.sb| < STOREBUF_DEPTH && !x.flush
          && (s.ld.Some? && !s.ld.value.squashed ==> s.sq[0].stamp < s.ld.value.stamp)
          && (x.squash.Some? ==> s.sq[0].stamp < x.squash.value))
    && (x.head.Some? ==> x.head.value.Stamp() >= s.nextStamp)
  }

  function Next<P>(p: Policy<P>, s: State<P>, x: Inputs): State<P>
    requires Allowed(s, x)
  {
    State(
      QueueNext(s, x), LoadNext(s, x), OutNext(s, x),
      (if Drains(s) then s.sb[1..] else s.sb) + (if x.commit then [s.sq[0].AsStore()] else []),
      LinesNext(p, s), PolicyNext(p, s), FillNext(s).0, FillNext(s).1, StartUncached(s),
      MemoryNext(s), ReadNext(s),
      if x.commit then s.committed + [s.sq[0]] else s.committed,
      if Drains(s) then s.writes + [s.sb[0]] else s.writes,
      DroppedNext(s, x),
      if HeadTaken(s, x) && !x.flush then x.head.value.Stamp() + 1 else s.nextStamp)
  }
}
