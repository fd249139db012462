/** What the core sees of a shared unit (the integer multiplier, a divider, a floating-point pipeline): the
    operations it will still report, oldest first. */
module Jobs {
  import opened Prelude
  import opened OooPackage
  import IntMultiplier

  /** An operation under way: the tag it will be broadcast under, and its result. */
  datatype Job = Job(tag: Tag, value: Word)

  datatype Inputs = Inputs(flush: bool, issue: Option<Job>, grant: bool, squash: Option<Tag>, head: Tag)

  function Older(jobs: seq<Job>, branch: Tag, head: Tag): seq<Job> {
    if |jobs| == 0 then []
    else Older(jobs[..|jobs| - 1], branch, head) + if Younger(jobs[|jobs| - 1].tag, branch, head) then [] else [jobs[|jobs| - 1]]
  }

  function Moved(jobs: seq<Job>, x: Inputs): seq<Job> {
    (if x.grant && jobs != [] then jobs[1..] else jobs) + (if x.issue.Some? then [x.issue.value] else [])
  }

  /** One edge: the oldest one leaves if it is granted, one may enter, a recovery drops the younger ones. */
  function Next(jobs: seq<Job>, x: Inputs): seq<Job> {
    if x.flush then []
    else if x.squash.Some? then Older(Moved(jobs, x), x.squash.value, x.head)
    else Moved(jobs, x)
  }

  ghost predicate Distinct(jobs: seq<Job>) {
    forall i, j :: 0 <= i < j < |jobs| ==> jobs[i].tag != jobs[j].tag
  }

  lemma {:induction false} OlderMembers(jobs: seq<Job>, branch: Tag, head: Tag)
    ensures forall j :: j in Older(jobs, branch, head) <==> j in jobs && !Younger(j.tag, branch, head)
    ensures Distinct(jobs) ==> Distinct(Older(jobs, branch, head))
  {
    hide Younger;
    if |jobs| > 0 {
      var rest, last := jobs[..|jobs| - 1], jobs[|jobs| - 1];
      OlderMembers(rest, branch, head);
      assert jobs == rest + [last];
      if Distinct(jobs) {
        var kept := Older(rest, branch, head);
        forall i | 0 <= i < |kept|
          ensures kept[i].tag != last.tag
        {
          assert kept[i] in rest;
          var k :| 0 <= k < |rest| && rest[k] == kept[i];
          assert jobs[k] == kept[i];
        }
      }
    }
  }

  /** What is still there after a cycle without a flush. */
  lemma NextMembers(jobs: seq<Job>, x: Inputs)
    requires !x.flush && Distinct(jobs) && (x.issue.Some? ==> forall j :: j in jobs ==> j.tag != x.issue.value.tag)
    ensures Distinct(Next(jobs, x))
    ensures forall j :: j in Next(jobs, x) <==>
              && ((j in jobs && !(x.grant && j == jobs[0])) || x.issue == Some(j))
              && (x.squash.Some? ==> !Younger(j.tag, x.squash.value, x.head))
  {
    hide Younger, Older;
    var moved := Moved(jobs, x);
    MovedMembers(jobs, x);
    if x.squash.Some? {
      OlderMembers(moved, x.squash.value, x.head);
    }
  }

  lemma MovedMembers(jobs: seq<Job>, x: Inputs)
    requires Distinct(jobs) && (x.issue.Some? ==> forall j :: j in jobs ==> j.tag != x.issue.value.tag)
    ensures Distinct(Moved(jobs, x))
    ensures forall j :: j in Moved(jobs, x) <==> (j in jobs && !(x.grant && j == jobs[0])) || x.issue == Some(j)
  {
    var left := if x.grant && jobs != [] then jobs[1..] else jobs;
    forall j | j in jobs
      ensures j in left <==> !(x.grant && j == jobs[0])
    {
      var k :| 0 <= k < |jobs| && jobs[k] == j;
      if k > 0 && x.grant {
        assert left[k - 1] == j;
      }
    }
    assert forall j :: j in left ==> j in jobs;
    assert forall i :: 0 <= i < |left| ==> left[i] in left;
  }

  // ---- the multiply unit is one ----

  function JobOf(op: IntMultiplier.Op): Job {
    Job(op.tag, IntMultiplier.Product(op))
  }

  function JobsOf(ops: seq<IntMultiplier.Op>): (jobs: seq<Job>)
    ensures |jobs| == |ops| && forall i :: 0 <= i < |ops| ==> jobs[i] == JobOf(ops[i])
  {
    if |ops| == 0 then [] else JobsOf(ops[..|ops| - 1]) + [JobOf(ops[|ops| - 1])]
  }

  lemma JobsSnoc(ops: seq<IntMultiplier.Op>, op: IntMultiplier.Op)
    ensures JobsOf(ops + [op]) == JobsOf(ops) + [JobOf(op)] && JobsOf(ops + []) == JobsOf(ops)
  {
    hide JobOf;
    assert ops + [] == ops;
  }

  lemma OlderNone(branch: Tag, head: Tag)
    ensures Older([], branch, head) == [] && JobsOf([]) == []
  {
  }

  lemma OlderSnoc(jobs: seq<Job>, job: Job, branch: Tag, head: Tag)
    ensures Older(jobs + [job], branch, head) == Older(jobs, branch, head) + if Younger(job.tag, branch, head) then [] else [job]
  {
    hide Younger;
    assert (jobs + [job])[..|jobs|] == jobs;
  }

  lemma {:induction false} OlderJobs(ops: seq<IntMultiplier.Op>, branch: Tag, head: Tag)
    ensures JobsOf(IntMultiplier.OlderOf(ops, branch, head)) == Older(JobsOf(ops), branch, head)
  {
    hide Younger, Older, IntMultiplier.Product, JobsOf;
    if |ops| > 0 {
      var rest, last := ops[..|ops| - 1], ops[|ops| - 1];
      assert ops == rest + [last];
      OlderJobs(rest, branch, head);
      JobsSnoc(rest, last);
      OlderSnoc(JobsOf(rest), JobOf(last), branch, head);
      JobsSnoc(IntMultiplier.OlderOf(rest, branch, head), last);
    } else {
      OlderNone(branch, head);
    }
  }

  /** One edge of the multiply unit (IntMultiplier.MultiplyUnit.Clock), as the core sees it. */
  lemma MultiplyUnitIsJobs(u: IntMultiplier.Unit, x: IntMultiplier.UnitInputs)
    ensures JobsOf(IntMultiplier.UnitNext(u, x).pending) ==
            Next(JobsOf(u.pending),
                 Inputs(x.flush, if x.advance && x.issue.Some? then Some(JobOf(x.issue.value)) else None, x.grant, x.squash, x.head))
  {
    hide Younger, JobOf, IntMultiplier.OlderOf, IntMultiplier.YoungerIds, IntMultiplier.AllIds, Older;
    var y := Inputs(x.flush, if x.advance && x.issue.Some? then Some(JobOf(x.issue.value)) else None, x.grant, x.squash, x.head);
    var moved := IntMultiplier.MovedPending(u.pending, x.advance, x.grant, x.issue);
    assert JobsOf(moved) == Moved(JobsOf(u.pending), y);
    if x.squash.Some? {
      OlderJobs(moved, x.squash.value, x.head);
    }
  }
}
