/** The dividers and the pipelined floating-point units with the tag registers the core keeps beside them: what each
    will still report moves as a list of jobs does. */
module SharedUnits {
  import opened Prelude
  import opened OooPackage
  import opened FpReference
  import opened Jobs
  import Binary32
  import FpAdder
  import FpDivider
  import FpMultiplier
  import IntDivider

  // ---- results ----

  lemma DivisionHasResult(op: IntDivider.Operation) returns (w: Word)
    ensures IntDivider.IsResult(op, w)
  {
    hide IntDivider.IsResult, IntDivider.QuotientNegative, IntDivider.RemainderNegative, IntDivider.Magnitude, IntDivider.Negate;
    if op.b == 0 {
      IntDivider.DivisionByZero(op);
      w := if op.op.WantsRemainder() then op.a else 0xffff_ffff;
    } else {
      var a, b := IntDivider.Magnitude(op.a, op.op.IsSigned()), IntDivider.Magnitude(op.b, op.op.IsSigned());
      IntDivider.MagnitudePositive(op.b, op.op.IsSigned());
      var quotient, rem := DivideMagnitudes(a, b);
      IntDivider.SignFixUp(op, quotient, rem);
      w := if op.op.WantsRemainder() then (if IntDivider.RemainderNegative(op) then IntDivider.Negate(rem) else rem)
           else (if IntDivider.QuotientNegative(op) then IntDivider.Negate(quotient) else quotient);
    }
  }

  lemma DivideMagnitudes(a: nat, b: nat) returns (quotient: nat, rem: nat)
    requires b > 0
    ensures a == quotient * b + rem && rem < b && quotient <= a && rem <= a
  {
    quotient, rem := a / b, a % b;
    AtLeastOnce(quotient, b);
  }

  lemma AtLeastOnce(q: nat, b: nat)
    requires b > 0
    ensures q <= b * q == q * b
  {
  }

  /** The one word that an integer division yields. */
  ghost function Division(op: IntDivider.Operation): (w: Word)
    ensures forall v: Word :: IntDivider.IsResult(op, v) <==> v == w
  {
    assert exists w: Word :: IntDivider.IsResult(op, w) by {
      var w := DivisionHasResult(op);
    }
    var w: Word :| IntDivider.IsResult(op, w);
    assert forall v: Word :: IntDivider.IsResult(op, v) ==> v == w by {
      forall v: Word | IntDivider.IsResult(op, v)
        ensures v == w
      {
        IntDivider.ResultUnique(op, v, w);
      }
    }
    w
  }

  ghost function Quotient(op: FpDivider.Operation): Word {
    QuotientFits(op.a, op.b, op.rm);
    FpDiv(op.a, op.b, op.rm).bits
  }

  ghost function Sum(op: FpAdder.Operation): Word {
    SumFits(op.a, op.b, op.rm, op.subtract);
    FpAdd(op.a, op.b, op.rm, op.subtract).bits
  }

  ghost function Product(op: FpMultiplier.Operation): Word {
    ProductFits(op.a, op.b, op.rm);
    FpMul(op.a, op.b, op.rm).bits
  }

  /** What the station offers a unit: an operation under its instruction's tag. */
  datatype Offer<T> = Offer(op: T, tag: Tag)

  // ---- the dividers: one operation at a time ----

  predicate IsSquashed(tag: Tag, squash: Option<Tag>, head: Tag) {
    squash.Some? && Younger(tag, squash.value, head)
  }

  /** A divider with at most one job: it is killed, acknowledged, kept, or given one. */
  lemma DividerStep(was: Option<Job>, now: Option<Job>, x: Inputs)
    requires x.grant ==> was.Some?
    requires x.issue.Some? ==> was.None? && !IsSquashed(x.issue.value.tag, x.squash, x.head)
    requires now == if x.flush || (was.Some? && IsSquashed(was.value.tag, x.squash, x.head)) then None
                    else if was.Some? then (if x.grant then None else was)
                    else x.issue
    ensures Listed(now) == Next(Listed(was), x)
  {
    hide Younger, Older;
    assert Moved(Listed(was), x) == Listed(if was.Some? && !x.grant then was else x.issue);
    if x.squash.Some? {
      OneOlder(was, x.squash.value, x.head);
      OneOlder(x.issue, x.squash.value, x.head);
      OneOlder(None, x.squash.value, x.head);
    }
  }

  lemma OneOlder(job: Option<Job>, branch: Tag, head: Tag)
    ensures Older(Listed(job), branch, head) == if job.Some? && Younger(job.value.tag, branch, head) then [] else Listed(job)
  {
    hide Younger;
    if job.Some? {
      assert [job.value][..0] == [];
    }
  }

  function Listed(job: Option<Job>): seq<Job> {
    if job.Some? then [job.value] else []
  }

  class IntDivideUnit {
    const divider: IntDivider.Divider
    var tag: Tag

    ghost function Working(): Option<Job>
      reads this, divider
    {
      if divider.state == IntDivider.IDLE || divider.op.None? then None else Some(Job(tag, Division(divider.op.value)))
    }

    ghost predicate Valid()
      reads this, divider
    {
      divider.Valid()
    }

    constructor ()
      ensures Valid() && fresh(divider) && Working() == None
    {
      divider := new IntDivider.Divider();
      tag := 0;
    }

    /** The request on the common data buses: its job's own tag and value. */
    method Request() returns (r: Option<Job>)
      requires Valid()
      ensures r == if divider.state == IntDivider.DONE then Working() else None
    {
      r := if divider.state == IntDivider.DONE then Some(Job(tag, divider.resultQ)) else None;
    }

    /** One clock edge. A division a recovery squashes is abandoned, or never started; else an idle divider takes what
        it is offered, and keeps it until its result is granted a bus. */
    method Clock(flush: bool, offer: Option<Offer<IntDivider.Operation>>, grant: bool, squash: Option<Tag>, head: Tag) returns (takes: bool)
      requires Valid() && (grant ==> divider.state == IntDivider.DONE)
      modifies this, divider
      ensures Valid()
      ensures takes == (offer.Some? && old(divider.state) == IntDivider.IDLE && !IsSquashed(offer.value.tag, squash, head))
      ensures Listed(Working()) ==
              Next(old(Listed(Working())),
                   Inputs(flush, if takes then Some(Job(offer.value.tag, Division(offer.value.op))) else None, grant, squash, head))
    {
      hide IntDivider.IsResult, Younger, Next, Older, Moved;
      ghost var was := Working();
      var busy := divider.state != IntDivider.IDLE;
      var kill := busy && IsSquashed(tag, squash, head);
      takes := offer.Some? && !busy && !IsSquashed(offer.value.tag, squash, head);
      ghost var issue := if takes then Some(Job(offer.value.tag, Division(offer.value.op))) else None;
      divider.Clock(flush || kill, takes, if offer.Some? then offer.value.op else IntDivider.Operation(IntDivider.Div, 0, 0), grant);
      if takes {
        tag := offer.value.tag;
      }
      DividerStep(was, Working(), Inputs(flush, issue, grant, squash, head));
    }
  }

  class FpDivideUnit {
    const divider: FpDivider.Divider
    var tag: Tag

    ghost function Working(): Option<Job>
      reads this, divider
    {
      if divider.state == FpDivider.IDLE || divider.op.None? then None else Some(Job(tag, Quotient(divider.op.value)))
    }

    ghost predicate Valid()
      reads this, divider
    {
      divider.Valid()
    }

    constructor ()
      ensures Valid() && fresh(divider) && Working() == None
    {
      divider := new FpDivider.Divider();
      tag := 0;
    }

    method Request() returns (r: Option<Job>)
      requires Valid()
      ensures r == if divider.state == FpDivider.DONE then Working() else None
    {
      hide FpDiv;
      if divider.state == FpDivider.DONE {
        QuotientFits(divider.op.value.a, divider.op.value.b, divider.op.value.rm);
        r := Some(Job(tag, divider.Result().bits));
      } else {
        r := None;
      }
    }

    method Clock(flush: bool, offer: Option<Offer<FpDivider.Operation>>, grant: bool, squash: Option<Tag>, head: Tag) returns (takes: bool)
      requires Valid() && (grant ==> divider.state == FpDivider.DONE)
      modifies this, divider
      ensures Valid()
      ensures takes == (offer.Some? && old(divider.state) == FpDivider.IDLE && !IsSquashed(offer.value.tag, squash, head))
      ensures Listed(Working()) ==
              Next(old(Listed(Working())),
                   Inputs(flush, if takes then Some(Job(offer.value.tag, Quotient(offer.value.op))) else None, grant, squash, head))
    {
      hide FpDiv, Younger, Next, Older, Moved;
      ghost var was := Working();
      var busy := divider.state != FpDivider.IDLE;
      var kill := busy && IsSquashed(tag, squash, head);
      takes := offer.Some? && !busy && !IsSquashed(offer.value.tag, squash, head);
      ghost var issue := if takes then Some(Job(offer.value.tag, Quotient(offer.value.op))) else None;
      divider.Clock(flush || kill, takes, if offer.Some? then offer.value.op else FpDivider.Operation(0, 0, Binary32.RNE), grant);
      if takes {
        tag := offer.value.tag;
      }
      DividerStep(was, Working(), Inputs(flush, issue, grant, squash, head));
    }
  }

  // ---- the pipelines: a tag and a live bit for each stage ----

  datatype Shadow = Shadow(tag1: Tag, tag2: Tag, tag3: Tag, live1: bool, live2: bool, live3: bool)

  /** The shadow after an edge: it moves with the pipeline, and a recovery clears live bits either way. */
  function Follow(s: Shadow, advance: bool, issue: bool, tag: Tag, squash: Option<Tag>, head: Tag): Shadow {
    if advance then
      Shadow(tag, s.tag1, s.tag2, issue && !IsSquashed(tag, squash, head),
             s.live1 && !IsSquashed(s.tag1, squash, head), s.live2 && !IsSquashed(s.tag2, squash, head))
    else
      Shadow(s.tag1, s.tag2, s.tag3, s.live1 && !IsSquashed(s.tag1, squash, head),
             s.live2 && !IsSquashed(s.tag2, squash, head), s.live3 && !IsSquashed(s.tag3, squash, head))
  }

  function JobIn(result: Option<Word>, live: bool, tag: Tag): seq<Job> {
    if result.Some? && live then [Job(tag, result.value)] else []
  }

  /** The jobs in the three stages, oldest first. */
  function JobsIn(r1: Option<Word>, r2: Option<Word>, r3: Option<Word>, s: Shadow): seq<Job> {
    JobIn(r3, s.live3, s.tag3) + JobIn(r2, s.live2, s.tag2) + JobIn(r1, s.live1, s.tag1)
  }

  lemma OlderPrepend(job: seq<Job>, jobs: seq<Job>, branch: Tag, head: Tag)
    requires |job| <= 1 && |jobs| <= 3
    ensures Older(job + jobs, branch, head) == Older(job, branch, head) + Older(jobs, branch, head)
    ensures Older(job, branch, head) == if |job| == 1 && !Younger(job[0].tag, branch, head) then job else []
    decreases |jobs|
  {
    hide Younger;
    if |jobs| == 0 {
      assert job + jobs == job;
    } else {
      assert (job + jobs)[..|job + jobs| - 1] == job + jobs[..|jobs| - 1];
      OlderPrepend(job, jobs[..|jobs| - 1], branch, head);
    }
  }

  /** Clearing the live bits of younger operations drops exactly their jobs. */
  lemma ClearedJobs(r1: Option<Word>, r2: Option<Word>, r3: Option<Word>, s: Shadow, branch: Tag, head: Tag)
    ensures JobsIn(r1, r2, r3, s.(live1 := s.live1 && !Younger(s.tag1, branch, head), live2 := s.live2 && !Younger(s.tag2, branch, head),
                                  live3 := s.live3 && !Younger(s.tag3, branch, head)))
            == Older(JobsIn(r1, r2, r3, s), branch, head)
  {
    hide Younger, Older, JobIn;
    OneCleared(r1, s.live1, s.tag1, branch, head);
    OneCleared(r2, s.live2, s.tag2, branch, head);
    OneCleared(r3, s.live3, s.tag3, branch, head);
    OlderThree(JobIn(r3, s.live3, s.tag3), JobIn(r2, s.live2, s.tag2), JobIn(r1, s.live1, s.tag1), branch, head);
  }

  lemma OlderThree(j3: seq<Job>, j2: seq<Job>, j1: seq<Job>, branch: Tag, head: Tag)
    requires |j1| <= 1 && |j2| <= 1 && |j3| <= 1
    ensures Older(j3 + j2 + j1, branch, head) == Older(j3, branch, head) + Older(j2, branch, head) + Older(j1, branch, head)
  {
    hide Younger, Older;
    assert j3 + j2 + j1 == j3 + (j2 + j1);
    OlderPrepend(j3, j2 + j1, branch, head);
    OlderPrepend(j2, j1, branch, head);
  }

  lemma OneCleared(r: Option<Word>, live: bool, tag: Tag, branch: Tag, head: Tag)
    ensures |JobIn(r, live, tag)| <= 1 && Older(JobIn(r, live, tag), branch, head) == JobIn(r, live && !Younger(tag, branch, head), tag)
  {
    hide Younger, Older;
    OlderPrepend(JobIn(r, live, tag), [], branch, head);
  }

  /** A pipeline and its shadow: the oldest job leaves when it is granted, a stage that waits for a grant holds
      everything, and a squashed operation goes on through the stages but is never reported. */
  lemma PipelineStep(r1: Option<Word>, r2: Option<Word>, r3: Option<Word>, s: Shadow, issue: Option<Job>, grant: bool, squash: Option<Tag>, head: Tag, tag: Tag)
    requires grant ==> r3.Some? && s.live3
    requires issue.Some? ==> tag == issue.value.tag
    ensures var advance := !(r3.Some? && s.live3 && !grant);
            var r := if issue.Some? then Some(issue.value.value) else None;
            var s' := Follow(s, advance, issue.Some?, tag, squash, head);
            (if advance then JobsIn(r, r1, r2, s') else JobsIn(r1, r2, r3, s')) ==
            Next(JobsIn(r1, r2, r3, s), Inputs(false, if advance then issue else None, grant, squash, head))
  {
    hide Younger, Older, JobsIn, Moved;
    var advance := !(r3.Some? && s.live3 && !grant);
    var r := if issue.Some? then Some(issue.value.value) else None;
    var moved := if advance then Shadow(tag, s.tag1, s.tag2, issue.Some?, s.live1, s.live2) else s;
    var x := Inputs(false, if advance then issue else None, grant, squash, head);
    MovedJobs(r1, r2, r3, s, issue, grant, tag, x);
    if squash.Some? {
      if advance {
        ClearedJobs(r, r1, r2, moved, squash.value, head);
      } else {
        ClearedJobs(r1, r2, r3, moved, squash.value, head);
      }
    }
  }

  lemma MovedJobs(r1: Option<Word>, r2: Option<Word>, r3: Option<Word>, s: Shadow, issue: Option<Job>, grant: bool, tag: Tag, x: Inputs)
    requires grant ==> r3.Some? && s.live3
    requires issue.Some? ==> tag == issue.value.tag
    requires x.grant == grant && x.issue == if r3.Some? && s.live3 && !grant then None else issue
    ensures (if r3.Some? && s.live3 && !grant then JobsIn(r1, r2, r3, s)
             else JobsIn(if issue.Some? then Some(issue.value.value) else None, r1, r2, Shadow(tag, s.tag1, s.tag2, issue.Some?, s.live1, s.live2)))
            == Moved(JobsIn(r1, r2, r3, s), x)
  {
    var jobs := JobsIn(r1, r2, r3, s);
    if r3.Some? && s.live3 {
      assert jobs == [Job(s.tag3, r3.value)] + (JobIn(r2, s.live2, s.tag2) + JobIn(r1, s.live1, s.tag1));
    }
  }

  class FpAddUnit {
    const adder: FpAdder.Adder
    var shadow: Shadow

    ghost function SumOf(op: Option<FpAdder.Operation>): Option<Word> {
      if op.Some? then Some(Sum(op.value)) else None
    }

    ghost function Working(): seq<Job>
      reads this, adder
    {
      JobsIn(SumOf(adder.op1), SumOf(adder.op2), SumOf(adder.op3), shadow)
    }

    ghost predicate Valid()
      reads this, adder
    {
      adder.Valid()
    }

    constructor ()
      ensures Valid() && fresh(adder) && Working() == []
    {
      adder := new FpAdder.Adder();
      shadow := Shadow(0, 0, 0, false, false, false);
    }

    predicate Requests()
      reads this, adder
    {
      adder.outValid && shadow.live3
    }

    /** The request on the common data buses: the oldest job. */
    method Request() returns (r: Option<Job>)
      requires Valid()
      ensures if Requests() then Working() != [] && r == Some(Working()[0]) else r == None
    {
      hide FpAdd;
      if Requests() {
        SumFits(adder.op3.value.a, adder.op3.value.b, adder.op3.value.rm, adder.op3.value.subtract);
        r := Some(Job(shadow.tag3, adder.out.bits));
      } else {
        r := None;
      }
    }

    /** One clock edge: the unit advances unless a live result was not granted a bus. */
    method Clock(flush: bool, offer: Option<Offer<FpAdder.Operation>>, grant: bool, squash: Option<Tag>, head: Tag) returns (takes: bool)
      requires Valid() && (grant ==> Requests())
      modifies this, adder
      ensures Valid()
      ensures takes == (offer.Some? && (grant || !old(Requests())))
      ensures Working() ==
              Next(old(Working()),
                   Inputs(flush, if takes then Some(Job(offer.value.tag, Sum(offer.value.op))) else None, grant, squash, head))
    {
      hide Sum, FpAdd, Younger, Next, Older, Moved, JobsIn, IsSquashed;
      var advance := !(Requests() && !grant);
      takes := offer.Some? && advance;
      var tag := if offer.Some? then offer.value.tag else 0;
      ghost var issue := if offer.Some? then Some(Job(tag, Sum(offer.value.op))) else None;
      PipelineStep(SumOf(adder.op1), SumOf(adder.op2), SumOf(adder.op3), shadow, issue, grant, squash, head, tag);
      adder.Clock(flush, advance, offer.Some?, if offer.Some? then offer.value.op else FpAdder.Operation(0, 0, Binary32.RNE, false));
      shadow := Follow(shadow, advance, offer.Some?, tag, squash, head);
      if flush {
        NoJobs(shadow);
        NextFlushed(old(Working()), Inputs(flush, if takes then issue else None, grant, squash, head));
      }
    }
  }

  lemma NoJobs(s: Shadow)
    ensures JobsIn(None, None, None, s) == []
  {
  }

  lemma NextFlushed(jobs: seq<Job>, x: Inputs)
    requires x.flush
    ensures Next(jobs, x) == []
  {
  }

  class FpMultiplyUnit {
    const multiplier: FpMultiplier.Multiplier
    var shadow: Shadow

    ghost function ProductOf(op: Option<FpMultiplier.Operation>): Option<Word> {
      if op.Some? then Some(Product(op.value)) else None
    }

    ghost function Working(): seq<Job>
      reads this, multiplier
    {
      JobsIn(ProductOf(multiplier.op1), ProductOf(multiplier.op2), ProductOf(multiplier.op3), shadow)
    }

    ghost predicate Valid()
      reads this, multiplier
    {
      multiplier.Valid()
    }

    constructor ()
      ensures Valid() && fresh(multiplier) && Working() == []
    {
      multiplier := new FpMultiplier.Multiplier();
      shadow := Shadow(0, 0, 0, false, false, false);
    }

    predicate Requests()
      reads this, multiplier
    {
      multiplier.outValid && shadow.live3
    }

    method Request() returns (r: Option<Job>)
      requires Valid()
      ensures if Requests() then Working() != [] && r == Some(Working()[0]) else r == None
    {
      hide FpMul;
      if Requests() {
        ProductFits(multiplier.op3.value.a, multiplier.op3.value.b, multiplier.op3.value.rm);
        r := Some(Job(shadow.tag3, multiplier.out.bits));
      } else {
        r := None;
      }
    }

    method Clock(flush: bool, offer: Option<Offer<FpMultiplier.Operation>>, grant: bool, squash: Option<Tag>, head: Tag) returns (takes: bool)
      requires Valid() && (grant ==> Requests())
      modifies this, multiplier
      ensures Valid()
      ensures takes == (offer.Some? && (grant || !old(Requests())))
      ensures Working() ==
              Next(old(Working()),
                   Inputs(flush, if takes then Some(Job(offer.value.tag, Product(offer.value.op))) else None, grant, squash, head))
    {
      hide Product, FpMul, Younger, Next, Older, Moved, JobsIn, IsSquashed;
      var advance := !(Requests() && !grant);
      takes := offer.Some? && advance;
      var tag := if offer.Some? then offer.value.tag else 0;
      ghost var issue := if offer.Some? then Some(Job(tag, Product(offer.value.op))) else None;
      PipelineStep(ProductOf(multiplier.op1), ProductOf(multiplier.op2), ProductOf(multiplier.op3), shadow, issue, grant, squash, head, tag);
      multiplier.Clock(flush, advance, offer.Some?, if offer.Some? then offer.value.op else FpMultiplier.Operation(0, 0, Binary32.RNE));
      shadow := Follow(shadow, advance, offer.Some?, tag, squash, head);
      if flush {
        NoJobs(shadow);
        NextFlushed(old(Working()), Inputs(flush, if takes then issue else None, grant, squash, head));
      }
    }
  }
}
