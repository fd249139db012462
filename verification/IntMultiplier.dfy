/** The integer multiply unit: three stallable stages, and the tag shadow whose live bits a recovery clears. */
module IntMultiplier {
  import opened Prelude
  import opened OooPackage
  import I = IntDivider

  datatype Kind = Mul | Mulh | Mulhsu | Mulhu

  /** One multiply. `id` is history: its place in the order of issue. */
  datatype Op = Op(id: nat, tag: Tag, kind: Kind, a: Word, b: Word)

  const TWO32 := 0x1_0000_0000

  /** What section 7.1 of the RISC-V Unprivileged ISA asks for: the low or the high word of the product. */
  function Product(op: Op): Word {
    match op.kind
    case Mul => I.ToSigned(op.a) * I.ToSigned(op.b) % TWO32
    case Mulh => I.ToSigned(op.a) * I.ToSigned(op.b) / TWO32 % TWO32
    case Mulhsu => I.ToSigned(op.a) * op.b / TWO32 % TWO32
    case Mulhu => op.a * op.b / TWO32 % TWO32
  }

  // ---- the operands as 33-bit signed numbers ----

  function ExtendA(op: Op): int {
    if (op.kind == Mulh || op.kind == Mulhsu) && op.a >= 0x8000_0000 then op.a - TWO32 else op.a
  }

  function ExtendB(op: Op): int {
    if op.kind == Mulh && op.b >= 0x8000_0000 then op.b - TWO32 else op.b
  }

  /** The 33-by-33-bit multiply between the first two stages. */
  function Times(x: int, y: int): int {
    x * y
  }

  /** The output register's select between the product's halves. */
  function Select(product: int, hi: bool): Word {
    if hi then product / TWO32 % TWO32 else product % TWO32
  }

  /** The low word does not depend on whether the operands were read as signed. */
  lemma LowWordIgnoresSign(a: Word, b: Word)
    ensures I.ToSigned(a) * I.ToSigned(b) % TWO32 == a * b % TWO32
  {
    var sa, sb := I.ToSigned(a), I.ToSigned(b);
    SameLow(a, sa, b);
    SameLow(b, sb, sa);
    Commutes(a, b);
    Commutes(sa, b);
    Commutes(sa, sb);
  }

  lemma Commutes(x: int, y: int)
    ensures x * y == y * x
  {
  }

  /** Changing a factor by a multiple of 2^32 keeps the low word. */
  lemma SameLow(x: int, x': int, y: int)
    requires x' == x || x' == x - TWO32
    ensures x * y % TWO32 == x' * y % TWO32
  {
    if x' == x - TWO32 {
      Distribute(x, y);
      ShiftedMod(x * y, y);
    }
  }

  lemma Distribute(x: int, y: int)
    ensures (x - TWO32) * y == x * y - TWO32 * y
  {
  }

  lemma ShiftedMod(p: int, k: int)
    ensures (p - TWO32 * k) % TWO32 == p % TWO32
  {
    var q, r := p / TWO32, p % TWO32;
    assert p - TWO32 * k == TWO32 * (q - k) + r;
    ModUnique(p - TWO32 * k, q - k, r);
  }

  lemma ModUnique(x: int, q: int, r: nat)
    requires x == TWO32 * q + r && r < TWO32
    ensures x % TWO32 == r
  {
    var q', r' := x / TWO32, x % TWO32;
    assert TWO32 * (q - q') == r' - r;
  }

  /** The pipeline's arithmetic is the ISA's. */
  lemma PipelineIsProduct(op: Op)
    ensures Select(Times(ExtendA(op), ExtendB(op)), op.kind != Mul) == Product(op)
  {
    LowWordIgnoresSign(op.a, op.b);
  }

  // ---- logs ----

  /** The issued operations that were not squashed, in order. */
  function Surviving(issued: seq<Op>, dropped: set<nat>): seq<Op> {
    if |issued| == 0 then []
    else Surviving(issued[..|issued| - 1], dropped) + if issued[|issued| - 1].id in dropped then [] else [issued[|issued| - 1]]
  }

  ghost predicate Numbered(issued: seq<Op>, next: nat) {
    (forall i :: 0 <= i < |issued| ==> issued[i].id < next) && forall i, j :: 0 <= i < j < |issued| ==> issued[i].id < issued[j].id
  }

  lemma {:induction false} DroppedLater(issued: seq<Op>, dropped: set<nat>, more: set<nat>)
    ensures Surviving(issued, dropped + more) == Keep(Surviving(issued, dropped), more)
  {
    if |issued| > 0 {
      DroppedLater(issued[..|issued| - 1], dropped, more);
      KeepSnoc(Surviving(issued[..|issued| - 1], dropped), issued[|issued| - 1], more);
    }
  }

  function Keep(ops: seq<Op>, gone: set<nat>): seq<Op> {
    if |ops| == 0 then [] else Keep(ops[..|ops| - 1], gone) + if ops[|ops| - 1].id in gone then [] else [ops[|ops| - 1]]
  }

  lemma KeepSnoc(ops: seq<Op>, op: Op, gone: set<nat>)
    ensures Keep(ops + [op], gone) == Keep(ops, gone) + if op.id in gone then [] else [op]
    ensures ops + [] == ops
  {
    assert (ops + [op])[..|ops|] == ops;
  }

  lemma {:induction false} KeepAppend(a: seq<Op>, b: seq<Op>, gone: set<nat>)
    ensures Keep(a + b, gone) == Keep(a, gone) + Keep(b, gone)
  {
    if |b| == 0 {
      assert a + b == a;
    } else {
      KeepAppend(a, b[..|b| - 1], gone);
      assert (a + b)[..|a + b| - 1] == a + b[..|b| - 1];
    }
  }

  lemma {:induction false} KeepAll(ops: seq<Op>, gone: set<nat>)
    requires forall i :: 0 <= i < |ops| ==> ops[i].id !in gone
    ensures Keep(ops, gone) == ops
  {
    if |ops| > 0 {
      KeepAll(ops[..|ops| - 1], gone);
    }
  }

  lemma {:induction false} SurvivorWasIssued(issued: seq<Op>, dropped: set<nat>, k: nat)
    requires k < |Surviving(issued, dropped)|
    ensures Surviving(issued, dropped)[k] in issued && Surviving(issued, dropped)[k].id !in dropped
  {
    if |issued| > 0 && k < |Surviving(issued[..|issued| - 1], dropped)| {
      SurvivorWasIssued(issued[..|issued| - 1], dropped, k);
    }
  }

  lemma {:induction false} SurvivorsIncrease(issued: seq<Op>, dropped: set<nat>, next: nat)
    requires Numbered(issued, next)
    ensures Numbered(Surviving(issued, dropped), next)
  {
    if |issued| > 0 {
      var rest, last := issued[..|issued| - 1], issued[|issued| - 1];
      SurvivorsIncrease(rest, dropped, last.id);
    }
  }

  /** Dropping some pending operations leaves what was broadcast alone. */
  lemma DropPending(issued: seq<Op>, dropped: set<nat>, sent: seq<Op>, pending: seq<Op>, gone: set<nat>, next: nat)
    requires Numbered(issued, next) && Surviving(issued, dropped) == sent + pending
    requires forall g :: g in gone ==> exists k :: 0 <= k < |pending| && pending[k].id == g
    ensures Surviving(issued, dropped + gone) == sent + Keep(pending, gone)
  {
    SurvivorsIncrease(issued, dropped, next);
    DroppedLater(issued, dropped, gone);
    KeepAppend(sent, pending, gone);
    forall i | 0 <= i < |sent|
      ensures sent[i].id !in gone
    {
      assert (sent + pending)[i] == sent[i];
      forall k | 0 <= k < |pending|
        ensures pending[k].id != sent[i].id
      {
        assert (sent + pending)[|sent| + k] == pending[k];
      }
    }
    KeepAll(sent, gone);
  }

  // ---- the unit ----

  datatype Stage1 = Stage1(valid: bool, live: bool, tag: Tag, a: int, b: int, hi: bool)
  datatype Stage2 = Stage2(valid: bool, live: bool, tag: Tag, product: int, hi: bool)
  datatype Stage3 = Stage3(valid: bool, live: bool, tag: Tag, result: Word)

  /** The unit's registers, and (history) the operation in each stage. */
  datatype Pipe = Pipe(s1: Stage1, s2: Stage2, s3: Stage3)
  {
    predicate Requests() {
      s3.valid && s3.live
    }
  }

  datatype Ops = Ops(op1: Op, op2: Op, op3: Op)

  /** The operations in the three stages that will still be broadcast, oldest first. */
  function PendingIn(p: Pipe, o: Ops): seq<Op> {
    (if p.s3.valid && p.s3.live then [o.op3] else []) + (if p.s2.valid && p.s2.live then [o.op2] else []) +
    (if p.s1.valid && p.s1.live then [o.op1] else [])
  }

  /** Each stage holds its own operation's numbers and its own tag. */
  ghost predicate Aligned(p: Pipe, o: Ops) {
    && p.s1.tag == o.op1.tag && p.s2.tag == o.op2.tag && p.s3.tag == o.op3.tag
    && (p.s1.valid ==> p.s1.a == ExtendA(o.op1) && p.s1.b == ExtendB(o.op1) && p.s1.hi == (o.op1.kind != Mul))
    && (p.s2.valid ==> p.s2.product == Times(ExtendA(o.op2), ExtendB(o.op2)) && p.s2.hi == (o.op2.kind != Mul))
    && (p.s3.valid ==> p.s3.result == Product(o.op3))
  }

  /** History: what was issued, which of it was squashed, what was broadcast, and the next unused id. */
  datatype Log = Log(issued: seq<Op>, dropped: set<nat>, sent: seq<Op>, next: nat)

  /** What was broadcast, then what is pending, is exactly what was issued and not squashed. */
  ghost predicate Accounted(log: Log, pending: seq<Op>) {
    && Numbered(log.issued, log.next) && (forall d :: d in log.dropped ==> d < log.next)
    && Surviving(log.issued, log.dropped) == log.sent + pending
  }

  /** The stages move one on. */
  method Shift(p: Pipe, issue: Option<Op>, ghost o: Ops) returns (p': Pipe, ghost o': Ops)
    requires Aligned(p, o)
    ensures Aligned(p', o')
    ensures PendingIn(p', o') == (if p.Requests() then PendingIn(p, o)[1..] else PendingIn(p, o)) + (if issue.Some? then [issue.value] else [])
  {
    hide Product, ExtendA, ExtendB, Times, Select;
    PipelineIsProduct(o.op2);
    var s3 := Stage3(p.s2.valid, p.s2.live, p.s2.tag, Select(p.s2.product, p.s2.hi));
    var s2 := Stage2(p.s1.valid, p.s1.live, p.s1.tag, Times(p.s1.a, p.s1.b), p.s1.hi);
    var s1 := p.s1.(valid := false, live := false);
    o' := Ops(o.op1, o.op1, o.op2);
    if issue.Some? {
      var op := issue.value;
      s1 := Stage1(true, true, op.tag, ExtendA(op), ExtendB(op), op.kind != Mul);
      o' := Ops(op, o.op1, o.op2);
    }
    p' := Pipe(s1, s2, s3);
  }

  /** A recovery clears the live bits of younger operations. */
  function ClearLive(p: Pipe, branch: Tag, head: Tag): Pipe {
    Pipe(p.s1.(live := p.s1.live && !Younger(p.s1.tag, branch, head)),
         p.s2.(live := p.s2.live && !Younger(p.s2.tag, branch, head)),
         p.s3.(live := p.s3.live && !Younger(p.s3.tag, branch, head)))
  }

  function ClearValid(p: Pipe): Pipe {
    Pipe(p.s1.(valid := false), p.s2.(valid := false), p.s3.(valid := false))
  }

  class MultiplyUnit {
    var pipe: Pipe
    ghost var ops: Ops
    ghost var log: Log

    ghost function Pending(): seq<Op>
      reads this
    {
      PendingIn(pipe, ops)
    }

    ghost predicate Valid()
      reads this
    {
      Aligned(pipe, ops) && Accounted(log, Pending())
    }

    constructor ()
      ensures Valid() && Pending() == [] && log.sent == [] && log.issued == []
    {
      pipe := Pipe(Stage1(false, false, 0, 0, 0, false), Stage2(false, false, 0, 0, false), Stage3(false, false, 0, 0));
      ops := Ops(Op(0, 0, Mul, 0, 0), Op(0, 0, Mul, 0, 0), Op(0, 0, Mul, 0, 0));
      log := Log([], {}, [], 0);
    }

    /** The request on the common data buses: the oldest pending operation's own tag and product. */
    method Request() returns (r: Option<Cdb>)
      requires Valid()
      ensures r == if pipe.Requests() then Some(Cdb(true, ops.op3.tag, Product(ops.op3))) else None
      ensures r.Some? ==> Pending() != [] && Pending()[0] == ops.op3
    {
      hide Product, Accounted;
      r := if pipe.s3.valid && pipe.s3.live then Some(Cdb(true, pipe.s3.tag, pipe.s3.result)) else None;
    }

    method Advance(issue: Option<Op>)
      requires Valid() && (issue.Some? ==> issue.value.id >= log.next)
      modifies this
      ensures Valid() && log == Moved(old(log), old(pipe.Requests()), old(ops.op3), issue)
      ensures Pending() == (if old(pipe.Requests()) then old(Pending())[1..] else old(Pending())) + (if issue.Some? then [issue.value] else [])
    {
      hide Accounted, Aligned;
      AccountMove(log, Pending(), pipe.Requests(), ops.op3, issue);
      ghost var sends, last := pipe.Requests(), ops.op3;
      pipe, ops := Shift(pipe, issue, ops);
      log := Moved(log, sends, last, issue);
    }

    method Squash(branch: Tag, head: Tag)
      requires Valid()
      modifies this
      ensures Valid() && log == old(log).(dropped := old(log).dropped + YoungerIds(old(Pending()), branch, head)) && ops == old(ops)
      ensures Pending() == OlderOf(old(Pending()), branch, head)
    {
      hide Accounted, PendingIn, OlderOf, Aligned, ClearLive;
      ClearingIsDropping(pipe, ops, branch, head);
      AccountDrop(log, Pending(), branch, head);
      log := log.(dropped := log.dropped + YoungerIds(Pending(), branch, head));
      pipe := ClearLive(pipe, branch, head);
    }

    /** A flush empties the unit. */
    method Reset()
      requires Valid()
      modifies this
      ensures Valid() && Pending() == [] && log == old(log).(dropped := old(log).dropped + AllIds(old(Pending())))
    {
      hide Accounted, PendingIn, Aligned, ClearValid;
      AccountFlush(log, Pending());
      ResettingIsDropping(pipe, ops);
      log := log.(dropped := log.dropped + AllIds(Pending()));
      pipe := ClearValid(pipe);
    }

    /** One clock edge. The unit advances unless a live result was not granted; a recovery clears the live
        bits of younger operations, whether it advances or not. */
    method Clock(flush: bool, issue: Option<Op>, grant: bool, squash: Option<Tag>, head: Tag)
      requires Valid() && (issue.Some? ==> issue.value.id >= log.next) && (grant ==> pipe.Requests())
      modifies this
      ensures Valid()
      ensures Unit(Pending(), log) ==
              UnitNext(old(Unit(Pending(), log)), UnitInputs(flush, issue, grant || !old(pipe.Requests()), grant, squash, head))
    {
      hide Younger, Accounted, Aligned, PendingIn, OlderOf, YoungerIds, AllIds;
      ghost var was, requests := Pending(), pipe.Requests();
      RequestIsOldest(pipe, ops);
      if grant || !pipe.Requests() {
        Advance(issue);
      }
      assert Pending() == MovedPending(was, grant || !requests, grant, issue);
      if squash.Some? {
        Squash(squash.value, head);
      }
      if flush {
        Reset();
      }
    }
  }

  lemma RequestIsOldest(p: Pipe, o: Ops)
    ensures p.Requests() ==> PendingIn(p, o) != [] && PendingIn(p, o)[0] == o.op3
  {
  }

  // ---- the unit's step, on the list of pending operations ----

  /** The operations that will still be broadcast, oldest first, and the history. */
  datatype Unit = Unit(pending: seq<Op>, log: Log)

  datatype UnitInputs = UnitInputs(flush: bool, issue: Option<Op>, advance: bool, grant: bool, squash: Option<Tag>, head: Tag)

  function MovedPending(pending: seq<Op>, advance: bool, grant: bool, issue: Option<Op>): seq<Op> {
    (if grant && pending != [] then pending[1..] else pending) + (if advance && issue.Some? then [issue.value] else [])
  }

  /** One edge: the oldest operation leaves if it is granted, a new one enters if the pipeline advances; then a
      recovery drops exactly the younger ones, and a flush all of them. */
  ghost function UnitNext(u: Unit, x: UnitInputs): Unit {
    var moved := MovedPending(u.pending, x.advance, x.grant, x.issue);
    var kept := if x.squash.Some? then OlderOf(moved, x.squash.value, x.head) else moved;
    var lost := if x.squash.Some? then YoungerIds(moved, x.squash.value, x.head) else {};
    var log := if x.advance then Moved(u.log, x.grant && u.pending != [], if u.pending != [] then u.pending[0] else Op(0, 0, Mul, 0, 0), x.issue)
               else u.log;
    if x.flush then Unit([], log.(dropped := log.dropped + lost + AllIds(kept)))
    else Unit(kept, log.(dropped := log.dropped + lost))
  }

  lemma ClearingIsDropping(p: Pipe, o: Ops, branch: Tag, head: Tag)
    requires Aligned(p, o)
    ensures Aligned(ClearLive(p, branch, head), o)
    ensures PendingIn(ClearLive(p, branch, head), o) == OlderOf(PendingIn(p, o), branch, head)
  {
    hide Younger, OlderOf, Product, ExtendA, ExtendB, Times;
    OlderOfThree(PendingIn(p, o), branch, head);
  }

  lemma ResettingIsDropping(p: Pipe, o: Ops)
    requires Aligned(p, o)
    ensures Aligned(ClearValid(p), o) && PendingIn(ClearValid(p), o) == []
  {
  }

  /** What a recovery keeps of a list of operations, and the identities it drops. */
  function OlderOf(ops: seq<Op>, branch: Tag, head: Tag): seq<Op> {
    if |ops| == 0 then []
    else OlderOf(ops[..|ops| - 1], branch, head) + if Younger(ops[|ops| - 1].tag, branch, head) then [] else [ops[|ops| - 1]]
  }

  lemma {:induction false} OlderOfIsOlder(ops: seq<Op>, branch: Tag, head: Tag)
    ensures forall op :: op in OlderOf(ops, branch, head) ==> !Younger(op.tag, branch, head)
  {
    hide Younger;
    if |ops| > 0 {
      OlderOfIsOlder(ops[..|ops| - 1], branch, head);
    }
  }

  lemma OlderOfThree(ops: seq<Op>, branch: Tag, head: Tag)
    requires |ops| <= 3
    ensures |ops| == 0 ==> OlderOf(ops, branch, head) == []
    ensures |ops| == 1 ==> OlderOf(ops, branch, head) == if Younger(ops[0].tag, branch, head) then [] else [ops[0]]
    ensures |ops| == 2 ==>
              OlderOf(ops, branch, head) ==
              (if Younger(ops[0].tag, branch, head) then [] else [ops[0]]) + (if Younger(ops[1].tag, branch, head) then [] else [ops[1]])
    ensures |ops| == 3 ==>
              OlderOf(ops, branch, head) ==
              (if Younger(ops[0].tag, branch, head) then [] else [ops[0]]) + (if Younger(ops[1].tag, branch, head) then [] else [ops[1]]) +
              (if Younger(ops[2].tag, branch, head) then [] else [ops[2]])
  {
    hide Younger;
    if |ops| > 0 {
      OlderOfThree(ops[..|ops| - 1], branch, head);
    }
  }

  ghost function YoungerIds(ops: seq<Op>, branch: Tag, head: Tag): set<nat> {
    set k | 0 <= k < |ops| && Younger(ops[k].tag, branch, head) :: ops[k].id
  }

  ghost function AllIds(ops: seq<Op>): set<nat> {
    set k | 0 <= k < |ops| :: ops[k].id
  }

  lemma {:induction false} KeepIsOlder(ops: seq<Op>, n: nat, branch: Tag, head: Tag, next: nat)
    requires n <= |ops| && Numbered(ops, next)
    ensures Keep(ops[..n], YoungerIds(ops, branch, head)) == OlderOf(ops[..n], branch, head)
  {
    hide Younger;
    if n > 0 {
      KeepIsOlder(ops, n - 1, branch, head, next);
      assert ops[..n][..n - 1] == ops[..n - 1];
    }
  }

  lemma {:induction false} KeepNone(ops: seq<Op>, n: nat)
    requires n <= |ops|
    ensures Keep(ops[..n], AllIds(ops)) == []
  {
    if n > 0 {
      KeepNone(ops, n - 1);
      assert ops[..n][..n - 1] == ops[..n - 1];
    }
  }

  /** The log after the pipeline moves: the last stage's operation is broadcast, a new one is issued. */
  function Moved(log: Log, sends: bool, last: Op, issue: Option<Op>): Log {
    Log(log.issued + (if issue.Some? then [issue.value] else []), log.dropped, log.sent + (if sends then [last] else []),
        if issue.Some? then issue.value.id + 1 else log.next)
  }

  lemma AccountMove(log: Log, pending: seq<Op>, sends: bool, last: Op, issue: Option<Op>)
    requires Accounted(log, pending) && (sends ==> pending != [] && pending[0] == last) && (issue.Some? ==> issue.value.id >= log.next)
    ensures Accounted(Moved(log, sends, last, issue),
                      (if sends then pending[1..] else pending) + (if issue.Some? then [issue.value] else []))
  {
    if issue.Some? {
      IssuedSurvives(log.issued, log.dropped, issue.value, log.sent, pending);
    }
    var more := if issue.Some? then [issue.value] else [];
    assert (log.sent + (if sends then [pending[0]] else [])) + ((if sends then pending[1..] else pending) + more) == log.sent + pending + more;
    assert log.issued + [] == log.issued && log.sent + pending + [] == log.sent + pending;
  }

  lemma AccountDrop(log: Log, pending: seq<Op>, branch: Tag, head: Tag)
    requires Accounted(log, pending)
    ensures Accounted(log.(dropped := log.dropped + YoungerIds(pending, branch, head)), OlderOf(pending, branch, head))
  {
    hide Younger, Surviving;
    DropPending(log.issued, log.dropped, log.sent, pending, YoungerIds(pending, branch, head), log.next);
    PendingDistinct(log.issued, log.dropped, log.sent, pending, log.next);
    KeepIsOlder(pending, |pending|, branch, head, log.next);
    assert pending[..|pending|] == pending;
  }

  lemma AccountFlush(log: Log, pending: seq<Op>)
    requires Accounted(log, pending)
    ensures Accounted(log.(dropped := log.dropped + AllIds(pending)), [])
  {
    hide Surviving;
    DropPending(log.issued, log.dropped, log.sent, pending, AllIds(pending), log.next);
    PendingDistinct(log.issued, log.dropped, log.sent, pending, log.next);
    KeepNone(pending, |pending|);
    assert pending[..|pending|] == pending;
  }

  lemma IssuedSurvives(log: seq<Op>, dropped: set<nat>, op: Op, sent: seq<Op>, pending: seq<Op>)
    requires Surviving(log, dropped) == sent + pending && op.id !in dropped
    ensures Surviving(log + [op], dropped) == sent + pending + [op]
  {
    assert (log + [op])[..|log|] == log;
  }

  lemma PendingDistinct(issued: seq<Op>, dropped: set<nat>, sent: seq<Op>, pending: seq<Op>, next: nat)
    requires Numbered(issued, next) && Surviving(issued, dropped) == sent + pending
    ensures Numbered(pending, next)
  {
    SurvivorsIncrease(issued, dropped, next);
    forall i | 0 <= i < |pending|
      ensures (sent + pending)[|sent| + i] == pending[i]
    {
    }
  }

  // ---- what the log says ----

  /** Each issued operation is in exactly one place: squashed, broadcast (once), or still pending. So one that
      is not squashed is broadcast exactly once, and one that is squashed never is. */
  lemma BroadcastOnce(log: Log, pending: seq<Op>, op: Op)
    requires Accounted(log, pending) && op in log.issued
    ensures op.id in log.dropped ==> op !in log.sent && op !in pending
    ensures op.id !in log.dropped ==> (op in log.sent) != (op in pending)
    ensures forall i, j :: 0 <= i < |log.sent| && 0 <= j < |log.sent| && log.sent[i] == op && log.sent[j] == op ==> i == j
  {
    hide Surviving;
    var all, n := log.sent + pending, |log.sent|;
    SurvivorsIncrease(log.issued, log.dropped, log.next);
    forall k | 0 <= k < |all|
      ensures all[k].id !in log.dropped && all[k] == if k < n then log.sent[k] else pending[k - n]
    {
      SurvivorWasIssued(log.issued, log.dropped, k);
    }
    forall i, j | 0 <= i < n && 0 <= j < |pending|
      ensures log.sent[i] != pending[j]
    {
      assert all[i] == log.sent[i] && all[n + j] == pending[j];
    }
    if op in log.sent || op in pending {
      assert op in all;
      var k :| 0 <= k < |all| && all[k] == op;
    }
    if op.id !in log.dropped {
      IssuedIsSurvivor(log.issued, log.dropped, op);
    }
    forall i, j | 0 <= i < n && 0 <= j < n && log.sent[i] == op && log.sent[j] == op
      ensures i == j
    {
      assert all[i] == op && all[j] == op;
    }
  }

  lemma {:induction false} IssuedIsSurvivor(issued: seq<Op>, dropped: set<nat>, op: Op)
    requires op in issued && op.id !in dropped
    ensures op in Surviving(issued, dropped)
  {
    if op != issued[|issued| - 1] {
      IssuedIsSurvivor(issued[..|issued| - 1], dropped, op);
    }
  }

  // ---- whole runs ----

  ghost predicate UnitAllowed(u: Unit, x: UnitInputs) {
    (x.issue.Some? ==> x.issue.value.id >= u.log.next) && (x.grant ==> x.advance && u.pending != [])
  }

  ghost predicate IsRun(units: seq<Unit>, inputs: seq<UnitInputs>) {
    && |units| == |inputs| + 1 && units[0] == Unit([], Log([], {}, [], 0))
    && forall i :: 0 <= i < |inputs| ==> UnitAllowed(units[i], inputs[i]) && units[i + 1] == UnitNext(units[i], inputs[i])
  }

  lemma UnitNextAccounts(u: Unit, x: UnitInputs)
    requires Accounted(u.log, u.pending) && UnitAllowed(u, x)
    ensures Accounted(UnitNext(u, x).log, UnitNext(u, x).pending)
  {
    hide Accounted, OlderOf, YoungerIds, AllIds;
    var moved := MovedPending(u.pending, x.advance, x.grant, x.issue);
    var log := u.log;
    if x.advance {
      var last := if u.pending != [] then u.pending[0] else Op(0, 0, Mul, 0, 0);
      log := Moved(u.log, x.grant && u.pending != [], last, x.issue);
      AccountMove(u.log, u.pending, x.grant && u.pending != [], last, x.issue);
    } else {
      assert u.pending + [] == u.pending;
    }
    var kept := moved;
    if x.squash.Some? {
      AccountDrop(log, moved, x.squash.value, x.head);
      kept := OlderOf(moved, x.squash.value, x.head);
      log := log.(dropped := log.dropped + YoungerIds(moved, x.squash.value, x.head));
    } else {
      assert log.(dropped := log.dropped + {}) == log;
    }
    if x.flush {
      AccountFlush(log, kept);
    }
  }

  lemma RunStep(units: seq<Unit>, inputs: seq<UnitInputs>, n: nat)
    requires IsRun(units, inputs) && n + 1 < |units|
    ensures n < |inputs| && UnitAllowed(units[n], inputs[n]) && units[n + 1] == UnitNext(units[n], inputs[n])
  {
    hide UnitNext, UnitAllowed;
  }

  lemma {:induction false} AlwaysAccounted(units: seq<Unit>, inputs: seq<UnitInputs>, n: nat)
    requires IsRun(units, inputs) && n < |units|
    ensures Accounted(units[n].log, units[n].pending)
  {
    hide UnitNext, UnitAllowed;
    if n > 0 {
      hide Accounted;
      AlwaysAccounted(units, inputs, n - 1);
      UnitNextAccounts(units[n - 1], inputs[n - 1]);
    }
  }

  /** In every run, each issued operation is at every moment in exactly one place: squashed, broadcast once, or
      still pending. */
  lemma ReportedOnce(units: seq<Unit>, inputs: seq<UnitInputs>, n: nat, op: Op)
    requires IsRun(units, inputs) && n < |units| && op in units[n].log.issued
    ensures var (sent, pending, dropped) := (units[n].log.sent, units[n].pending, units[n].log.dropped);
            && (op.id in dropped ==> op !in sent && op !in pending)
            && (op.id !in dropped ==> (op in sent) != (op in pending))
            && (forall i, j :: 0 <= i < |sent| && 0 <= j < |sent| && sent[i] == op && sent[j] == op ==> i == j)
  {
    hide IsRun, Accounted;
    AlwaysAccounted(units, inputs, n);
    BroadcastOnce(units[n].log, units[n].pending, op);
  }

  /** The operations one cycle squashes. */
  predicate Squashes(x: UnitInputs, op: Op) {
    x.flush || (x.squash.Some? && Younger(op.tag, x.squash.value, x.head))
  }

  lemma IdsAreMembers(ops: seq<Op>, branch: Tag, head: Tag, d: nat)
    requires d in YoungerIds(ops, branch, head)
    ensures exists op :: op in ops && op.id == d && Younger(op.tag, branch, head)
  {
    hide Younger;
    var k :| 0 <= k < |ops| && Younger(ops[k].tag, branch, head) && ops[k].id == d;
    assert ops[k] in ops;
  }

  /** Only a flush or an older branch's recovery loses an operation: whatever a cycle drops was pending, or issued
      in that cycle, and is younger than the recovering branch unless everything is flushed. */
  lemma OnlySquashesLose(u: Unit, x: UnitInputs, op: Op)
    requires Accounted(u.log, u.pending) && UnitAllowed(u, x)
    requires op in UnitNext(u, x).log.issued && op.id in UnitNext(u, x).log.dropped && op.id !in u.log.dropped
    ensures (op in u.pending || x.issue == Some(op)) && Squashes(x, op)
  {
    hide Younger, Surviving, OlderOf, YoungerIds, AllIds;
    var moved := MovedPending(u.pending, x.advance, x.grant, x.issue);
    UnitNextAccounts(u, x);
    var u' := UnitNext(u, x);
    LostWasPending(u, x, op.id);
    var lost :| lost in moved && lost.id == op.id && Squashes(x, lost);
    PendingWasIssued(u.log, u.pending, lost);
    assert lost in u'.log.issued;
    SameId(u'.log.issued, u'.log.next, op, lost);
  }

  lemma SameId(issued: seq<Op>, next: nat, a: Op, b: Op)
    requires Numbered(issued, next) && a in issued && b in issued && a.id == b.id
    ensures a == b
  {
    var i :| 0 <= i < |issued| && issued[i] == a;
    var j :| 0 <= j < |issued| && issued[j] == b;
  }

  lemma PendingWasIssued(log: Log, pending: seq<Op>, op: Op)
    requires Accounted(log, pending)
    ensures op in pending ==> op in log.issued
  {
    hide Surviving;
    if op in pending {
      var k :| 0 <= k < |pending| && pending[k] == op;
      assert (log.sent + pending)[|log.sent| + k] == op;
      SurvivorWasIssued(log.issued, log.dropped, |log.sent| + k);
    }
  }

  lemma LostWasPending(u: Unit, x: UnitInputs, d: nat)
    requires d in UnitNext(u, x).log.dropped && d !in u.log.dropped
    ensures exists op :: op in MovedPending(u.pending, x.advance, x.grant, x.issue) && op.id == d && Squashes(x, op)
  {
    hide Younger, OlderOf, YoungerIds, AllIds;
    var moved := MovedPending(u.pending, x.advance, x.grant, x.issue);
    if x.squash.Some? && d in YoungerIds(moved, x.squash.value, x.head) {
      IdsAreMembers(moved, x.squash.value, x.head, d);
    } else {
      var kept := if x.squash.Some? then OlderOf(moved, x.squash.value, x.head) else moved;
      assert d in AllIds(kept);
      AllAreMembers(kept, d);
      if x.squash.Some? {
        OlderOfMembers(moved, x.squash.value, x.head);
      }
    }
  }

  lemma AllAreMembers(ops: seq<Op>, d: nat)
    requires d in AllIds(ops)
    ensures exists op :: op in ops && op.id == d
  {
    var k :| 0 <= k < |ops| && ops[k].id == d;
    assert ops[k] in ops;
  }

  lemma {:induction false} OlderOfMembers(ops: seq<Op>, branch: Tag, head: Tag)
    ensures forall op :: op in OlderOf(ops, branch, head) <==> op in ops && !Younger(op.tag, branch, head)
  {
    hide Younger;
    if |ops| > 0 {
      OlderOfMembers(ops[..|ops| - 1], branch, head);
      assert ops == ops[..|ops| - 1] + [ops[|ops| - 1]];
    }
  }

  /** So an operation that no cycle squashes is broadcast exactly once or still pending, however long the unit
      stalled and whatever else was squashed. */
  lemma {:induction false} NeverLost(units: seq<Unit>, inputs: seq<UnitInputs>, m: nat, n: nat, op: Op)
    requires IsRun(units, inputs) && m <= n < |units| && op in units[m].log.issued && op.id !in units[m].log.dropped
    requires forall i :: m <= i < n ==> !Squashes(inputs[i], op)
    ensures op in units[n].log.issued && op.id !in units[n].log.dropped
    ensures (op in units[n].log.sent) != (op in units[n].pending)
    decreases n
  {
    hide IsRun, Accounted, Squashes, UnitAllowed, UnitNext;
    if m < n {
      RunStep(units, inputs, n - 1);
      NeverLost(units, inputs, m, n - 1, op);
      AlwaysAccounted(units, inputs, n - 1);
      IssuedGrows(units[n - 1], inputs[n - 1]);
      if op.id in units[n].log.dropped {
        OnlySquashesLose(units[n - 1], inputs[n - 1], op);
      }
    }
    ReportedOnce(units, inputs, n, op);
  }

  lemma IssuedGrows(u: Unit, x: UnitInputs)
    ensures forall op :: op in u.log.issued ==> op in UnitNext(u, x).log.issued
  {
  }
}
