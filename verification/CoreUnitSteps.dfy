/** The back end with a shared unit: how the two are wired, and why one cycle keeps the unit's jobs matched, one for
    one, with its executing instructions. */
module CoreUnitSteps {
  import opened Prelude
  import opened OooPackage
  import opened Isa
  import opened Wakeup
  import opened Dataflow
  import opened Core
  import opened CoreInvariant
  import opened CoreTable
  import opened CoreCycle
  import CoreBuffer
  import Jobs

  /** Which instructions the unit runs. */
  type Serves = Instr -> bool

  /** The unit's side of one cycle: the instruction its station issues to it, and whether it asks for a bus. */
  datatype Port = Port(issue: Option<nat>, requests: bool)

  /** The unit's instructions in flight. */
  ghost predicate Running(w: Window, serves: Serves, i: nat) {
    i < |w.ops| && i < |w.phases| && serves(w.ops[i].instr) && w.phases[i].Executing?
  }

  /** A job is the result of a live, executing instruction of the unit, under its own tag. */
  ghost predicate Names(w: Window, serves: Serves, j: Jobs.Job) {
    Running(w, serves, w.IndexOf(j.tag)) && w.phases[w.IndexOf(j.tag)].out.value == j.value
  }

  /** The jobs are the executing instructions, one for one. */
  ghost predicate Matched(w: Window, serves: Serves, jobs: seq<Jobs.Job>) {
    && Jobs.Distinct(jobs) && (forall j :: j in jobs ==> Names(w, serves, j))
    && (forall i: nat :: Running(w, serves, i) ==> exists j :: j in jobs && j.tag == w.TagOf(i))
  }

  predicate Granted(jobs: seq<Jobs.Job>, x: Inputs) {
    jobs != [] && OnBus(x, jobs[0].tag)
  }

  /** How the unit is wired: it is given what its station selects, and the only result of its own that ever gets
      a bus is the one it asks with, the oldest. */
  ghost predicate Wired<M>(serves: Serves, s: State<M>, jobs: seq<Jobs.Job>, x: Inputs, u: Port) {
    && (forall i :: i in x.issue.others && i < |s.w.ops| ==> (serves(s.w.ops[i].instr) <==> u.issue == Some(i)))
    && (u.issue.Some? ==> u.issue.value in x.issue.others)
    && (forall t: Tag :: OnBus(x, t) && s.w.Live(t) && serves(s.w.ops[s.w.IndexOf(t)].instr) ==>
          jobs != [] && u.requests && t == jobs[0].tag)
  }

  /** The operation the unit is given: its operands are resolved from the buses, and it computes on them. */
  function IssueJob<M>(isa: Isa<M>, s: State<M>, x: Inputs, u: Port): Option<Jobs.Job>
    requires Allowed(isa, s, x) && !Flushes(s, x)
  {
    var s1 := FrontHalf(isa, s, x);
    if u.issue.Some? && u.issue.value < |s1.w.ops| && u.issue.value < |s1.w.phases| && s1.w.phases[u.issue.value].Waiting? then
      var op, p := s1.w.ops[u.issue.value], s1.w.phases[u.issue.value];
      Some(Jobs.Job(s1.w.TagOf(u.issue.value),
                    isa.compute(op.instr, op.pc, Resolve(p.op1, BusesOf(s1, x), SpecStation(op.instr.cls)),
                                Resolve(p.op2, BusesOf(s1, x), SpecStation(op.instr.cls)))))
    else None
  }

  function UnitInputs<M>(isa: Isa<M>, s: State<M>, jobs: seq<Jobs.Job>, x: Inputs, u: Port): Jobs.Inputs
    requires Allowed(isa, s, x)
  {
    if Flushes(s, x) then Jobs.Inputs(true, None, Granted(jobs, x), None, s.w.head)
    else Jobs.Inputs(false, IssueJob(isa, s, x, u), Granted(jobs, x), if Recovers(s) then s.br else None, s.w.head)
  }

  /** Only shared units are units here. */
  ghost predicate IsUnit(serves: Serves) {
    forall i: Instr :: serves(i) ==> i.cls == Mul || i.cls == LongLatency
  }

  // ---- one cycle ----

  /** A result of the unit is on a bus exactly if it is the granted one. */
  lemma OnlyTheOldest<M>(isa: Isa<M>, serves: Serves, s: State<M>, jobs: seq<Jobs.Job>, x: Inputs, u: Port, i: nat)
    requires IsUnit(serves) && Inv(isa, s) && Allowed(isa, s, x) && !Flushes(s, x)
    requires Wired(serves, s, jobs, x, u) && Matched(s.w, serves, jobs) && Running(s.w, serves, i)
    requires Recovers(s) ==> i < s.w.IndexOf(s.br.value)
    ensures BusesOf(FrontHalf(isa, s, x), x).Carries(s.w.TagOf(i)) <==> Granted(jobs, x) && jobs[0].tag == s.w.TagOf(i)
  {
    hide Inv, Allowed, FrontHalf, BusesOf;
    CoreBuffer.SameBuses(isa, s, x, i);
    SharedOnBus(isa, s, x, i) by { UnitIsShared(serves, s, i); }
    AgeOfTagAt(s.w.head, i) by { LiveSize(isa, s); }
  }

  lemma UnitIsShared<M>(serves: Serves, s: State<M>, i: nat)
    requires IsUnit(serves) && Running(s.w, serves, i)
    ensures IsShared(s.w.ops[i])
  {
  }

  lemma LiveSize<M>(isa: Isa<M>, s: State<M>)
    requires Inv(isa, s)
    ensures s.Shape() && |s.w.ops| <= ROB_SIZE
  {
  }

  /** The instruction the unit is given starts executing, with the value the unit computes. */
  lemma IssueStarts<M>(isa: Isa<M>, serves: Serves, s: State<M>, jobs: seq<Jobs.Job>, x: Inputs, u: Port)
    requires IsUnit(serves) && Inv(isa, s) && Allowed(isa, s, x) && !Flushes(s, x) && Wired(serves, s, jobs, x, u) && u.issue.Some?
    ensures var i, s1 := u.issue.value, FrontHalf(isa, s, x);
            && i < |s.w.ops| && i < |s1.w.ops| && serves(s.w.ops[i].instr) && s.w.phases[i].Waiting?
            && s1.w.ops[i] == s.w.ops[i] && s1.w.phases[i] == s.w.phases[i] && s1.w.head == s.w.head
            && (Recovers(s) ==> i < s.w.IndexOf(s.br.value))
            && IssueJob(isa, s, x, u).Some? && IssueJob(isa, s, x, u).value.tag == s.w.TagOf(i)
            && AdvanceOne(isa, s1, x, i).Executing? && AdvanceOne(isa, s1, x, i).out.value == IssueJob(isa, s, x, u).value.value
  {
    hide Inv, Allowed, FrontHalf, BusesOf, Resolve, WakesOf;
    CoreBuffer.FrontFacts(isa, s, x);
    var i, s1 := u.issue.value, FrontHalf(isa, s, x);
    IssuedIsReady(s, s1, x, i);
    assert s1.w.phases[i].Waiting?;
  }

  lemma IssuedIsReady<M>(s0: State<M>, s: State<M>, x: Inputs, i: nat)
    requires s.Shape() && CanAdvance(s0, s, x) && i in x.issue.others
    ensures i < |s0.w.ops| && ReadyIn(s, i, {Mul, LongLatency}) && x.issue.Selects(i)
  {
    assert x.issue.Selects(i);
  }

  /** Where an instruction of the unit is after a cycle. */
  lemma RunningAfter<M>(isa: Isa<M>, serves: Serves, s: State<M>, jobs: seq<Jobs.Job>, x: Inputs, u: Port, i: nat)
    requires IsUnit(serves) && Inv(isa, s) && Allowed(isa, s, x) && !Flushes(s, x)
    requires Wired(serves, s, jobs, x, u) && Matched(s.w, serves, jobs)
    requires RetireCount(s, x.storeBufferFull) <= i < |FrontHalf(isa, s, x).w.ops|
    ensures var n, w' := RetireCount(s, x.storeBufferFull), Next(isa, s, x).w;
            && w'.TagOf(i - n) == s.w.TagOf(i) && w'.IndexOf(s.w.TagOf(i)) == i - n
            && (Running(w', serves, i - n) <==>
                  (Running(s.w, serves, i) && !(Granted(jobs, x) && jobs[0].tag == s.w.TagOf(i))) || u.issue == Some(i))
    ensures var n, w' := RetireCount(s, x.storeBufferFull), Next(isa, s, x).w;
            Running(w', serves, i - n) ==>
              if u.issue == Some(i) then IssueJob(isa, s, x, u).Some? && w'.phases[i - n].out.value == IssueJob(isa, s, x, u).value.value
              else Running(s.w, serves, i) && w'.phases[i - n].out.value == s.w.phases[i].out.value
  {
    hide Inv, Allowed, FrontHalf, AdvanceOne, Matched, Wired, IsUnit, IssueJob, RetireCount, Granted, Next, Running, Flushes;
    EntryAfter(isa, serves, s, x, i);
    if u.issue == Some(i) {
      AfterIssue(isa, serves, s, jobs, x, u);
    } else if Running(s.w, serves, i) {
      AfterRunning(isa, serves, s, jobs, x, u, i);
    } else {
      NotStarted(isa, serves, s, jobs, x, u, i);
    }
  }

  lemma AfterIssue<M>(isa: Isa<M>, serves: Serves, s: State<M>, jobs: seq<Jobs.Job>, x: Inputs, u: Port)
    requires IsUnit(serves) && Inv(isa, s) && Allowed(isa, s, x) && !Flushes(s, x) && Wired(serves, s, jobs, x, u) && u.issue.Some?
    ensures var i, s1 := u.issue.value, FrontHalf(isa, s, x);
            && !Running(s.w, serves, i) && IssueJob(isa, s, x, u).Some? && i < |s1.w.ops| && i < |s1.w.phases| && serves(s1.w.ops[i].instr)
            && AdvanceOne(isa, s1, x, i).Executing? && AdvanceOne(isa, s1, x, i).out.value == IssueJob(isa, s, x, u).value.value
  {
    hide Inv, Allowed, FrontHalf, AdvanceOne, Wired, IsUnit, IssueJob, Flushes;
    IssueStarts(isa, serves, s, jobs, x, u);
    FrontSize(isa, s, x);
  }

  lemma AfterRunning<M>(isa: Isa<M>, serves: Serves, s: State<M>, jobs: seq<Jobs.Job>, x: Inputs, u: Port, i: nat)
    requires IsUnit(serves) && Inv(isa, s) && Allowed(isa, s, x) && !Flushes(s, x)
    requires Wired(serves, s, jobs, x, u) && Matched(s.w, serves, jobs) && Running(s.w, serves, i) && i < |FrontHalf(isa, s, x).w.ops|
    ensures var s1 := FrontHalf(isa, s, x);
            && i < |s1.w.phases|
            && (serves(s1.w.ops[i].instr) && AdvanceOne(isa, s1, x, i).Executing? <==> !(Granted(jobs, x) && jobs[0].tag == s.w.TagOf(i)))
            && (AdvanceOne(isa, s1, x, i).Executing? ==> i < |s.w.phases| && !s.w.phases[i].Waiting? && AdvanceOne(isa, s1, x, i).out.value == s.w.phases[i].out.value)
  {
    hide Inv, Allowed, FrontHalf, AdvanceOne, Matched, Wired, IsUnit, Granted, Flushes;
    RunningStays(isa, serves, s, jobs, x, u, i);
  }

  lemma EntryAfter<M>(isa: Isa<M>, serves: Serves, s: State<M>, x: Inputs, i: nat)
    requires Inv(isa, s) && Allowed(isa, s, x) && !Flushes(s, x) && RetireCount(s, x.storeBufferFull) <= i < |FrontHalf(isa, s, x).w.ops|
    ensures var n, w', s1 := RetireCount(s, x.storeBufferFull), Next(isa, s, x).w, FrontHalf(isa, s, x);
            && i - n < |w'.ops| && i - n < |w'.phases| && i < |s1.w.phases|
            && w'.ops[i - n] == s1.w.ops[i] && w'.phases[i - n] == AdvanceOne(isa, s1, x, i)
            && w'.TagOf(i - n) == s.w.TagOf(i) && w'.IndexOf(s.w.TagOf(i)) == i - n
            && (Running(w', serves, i - n) <==> serves(s1.w.ops[i].instr) && AdvanceOne(isa, s1, x, i).Executing?)
  {
    hide Inv, Allowed, FrontHalf, AdvanceOne, RetireCount, Next;
    CycleWindow(isa, s, x);
    FrontSize(isa, s, x);
    TagMoves(s.w.head, RetireCount(s, x.storeBufferFull), i);
  }

  lemma FrontSize<M>(isa: Isa<M>, s: State<M>, x: Inputs)
    requires Allowed(isa, s, x) && !Flushes(s, x)
    ensures FrontHalf(isa, s, x).Shape() && |FrontHalf(isa, s, x).w.ops| <= ROB_SIZE
  {
    hide Allowed, FrontHalf;
  }

  lemma RunningStays<M>(isa: Isa<M>, serves: Serves, s: State<M>, jobs: seq<Jobs.Job>, x: Inputs, u: Port, i: nat)
    requires IsUnit(serves) && Inv(isa, s) && Allowed(isa, s, x) && !Flushes(s, x)
    requires Wired(serves, s, jobs, x, u) && Matched(s.w, serves, jobs) && Running(s.w, serves, i) && i < |FrontHalf(isa, s, x).w.ops|
    ensures var s1 := FrontHalf(isa, s, x);
            && i < |s1.w.phases| && s1.w.ops[i] == s.w.ops[i] && s1.w.phases[i] == s.w.phases[i]
            && AdvanceOne(isa, s1, x, i) ==
               if Granted(jobs, x) && jobs[0].tag == s.w.TagOf(i) then Done(s.w.phases[i].out) else s.w.phases[i]
  {
    hide Inv, Allowed, FrontHalf, AdvanceOne, BusesOf, Matched, Wired, IsUnit, Granted, Mispredicted;
    CoreBuffer.FrontFacts(isa, s, x);
    BranchIsOther(isa, serves, s, i);
    SurvivorIsOlder(isa, s, x, i);
    OnlyTheOldest(isa, serves, s, jobs, x, u, i);
    ExecutingMoves(isa, FrontHalf(isa, s, x), x, i);
  }

  lemma SurvivorIsOlder<M>(isa: Isa<M>, s: State<M>, x: Inputs, i: nat)
    requires Inv(isa, s) && Allowed(isa, s, x) && !Flushes(s, x) && i < |FrontHalf(isa, s, x).w.ops|
    ensures Recovers(s) ==> s.br.Some? && i <= s.w.IndexOf(s.br.value)
  {
    hide Inv, Allowed, FrontHalf, Mispredicted;
    CoreBuffer.FrontFacts(isa, s, x);
  }

  lemma BranchIsOther<M>(isa: Isa<M>, serves: Serves, s: State<M>, i: nat)
    requires IsUnit(serves) && Inv(isa, s) && Running(s.w, serves, i)
    ensures s.Shape() && (Recovers(s) ==> i != s.w.IndexOf(s.br.value))
  {
    hide Outcomes, Operands, Renaming, Stores, Histories, InOrder, Mispredicted;
  }

  /** Nothing else of the unit's starts. */
  lemma NotStarted<M>(isa: Isa<M>, serves: Serves, s: State<M>, jobs: seq<Jobs.Job>, x: Inputs, u: Port, i: nat)
    requires IsUnit(serves) && Inv(isa, s) && Allowed(isa, s, x) && !Flushes(s, x) && Wired(serves, s, jobs, x, u)
    requires i < |FrontHalf(isa, s, x).w.ops| && i < |FrontHalf(isa, s, x).w.phases| && !Running(s.w, serves, i) && u.issue != Some(i)
    ensures !(serves(FrontHalf(isa, s, x).w.ops[i].instr) && AdvanceOne(isa, FrontHalf(isa, s, x), x, i).Executing?)
  {
    hide Inv, Allowed, FrontHalf, BusesOf, Resolve, WakesOf, AllWakes, Execute;
    CoreBuffer.FrontFacts(isa, s, x);
    var s1 := FrontHalf(isa, s, x);
    if serves(s1.w.ops[i].instr) {
      if i < |s.w.ops| {
        SelectedOther(s, s1, x, i);
      } else {
        CoreBuffer.NotSelected(s, s1, x, i);
        NewIsNotExecuting(isa, s, x, i);
      }
    }
  }

  lemma NewIsNotExecuting<M>(isa: Isa<M>, s: State<M>, x: Inputs, i: nat)
    requires Inv(isa, s) && Allowed(isa, s, x) && !Flushes(s, x) && |s.w.ops| <= i < |FrontHalf(isa, s, x).w.ops|
    ensures i < |FrontHalf(isa, s, x).w.phases| && !FrontHalf(isa, s, x).w.phases[i].Executing?
  {
    hide Inv, Allowed, FrontHalf, CoreBuffer.NewEntry, CoreBuffer.EntryOf;
    CoreBuffer.FrontFacts(isa, s, x);
    CoreBuffer.NewEntryIs(isa, s, x, i - |s.w.ops|);
  }

  /** A shared unit's instruction is selected only through `others`. */
  lemma SelectedOther<M>(s0: State<M>, s: State<M>, x: Inputs, i: nat)
    requires s.Shape() && CanAdvance(s0, s, x) && i < |s.w.ops| && (s.w.ops[i].instr.cls == Mul || s.w.ops[i].instr.cls == LongLatency)
    ensures x.issue.Selects(i) <==> i in x.issue.others
  {
  }

  /** The whole step: a cycle keeps jobs and executing instructions matched, through issue, grant, commit, recovery
      and flush. */
  lemma MatchedStep<M>(isa: Isa<M>, serves: Serves, s: State<M>, jobs: seq<Jobs.Job>, x: Inputs, u: Port)
    requires IsUnit(serves) && Inv(isa, s) && Allowed(isa, s, x)
    requires Wired(serves, s, jobs, x, u) && Matched(s.w, serves, jobs)
    ensures Matched(Next(isa, s, x).w, serves, Jobs.Next(jobs, UnitInputs(isa, s, jobs, x, u)))
  {
    hide Inv, Allowed, Next, RetireCount, FrontHalf, IssueJob, Granted, Wired, IsUnit, Jobs.Next;
    var y := UnitInputs(isa, s, jobs, x, u);
    var jobs', w' := Jobs.Next(jobs, y), Next(isa, s, x).w;
    if Flushes(s, x) {
      CoreBuffer.FlushWindow(isa, s, x);
      FlushedJobs(jobs, y);
    } else {
      IssueIsNew(isa, serves, s, jobs, x, u);
      Jobs.NextMembers(jobs, y);
      CycleWindow(isa, s, x);
      forall j | j in jobs'
        ensures Names(w', serves, j)
      {
        JobStays(isa, serves, s, jobs, x, u, j);
      }
      forall i': nat | Running(w', serves, i')
        ensures exists j :: j in jobs' && j.tag == w'.TagOf(i')
      {
        RunningHasJob(isa, serves, s, jobs, x, u, i');
      }
    }
  }

  lemma FlushedJobs(jobs: seq<Jobs.Job>, y: Jobs.Inputs)
    requires y.flush
    ensures Jobs.Next(jobs, y) == []
  {
  }

  lemma IssueIsNew<M>(isa: Isa<M>, serves: Serves, s: State<M>, jobs: seq<Jobs.Job>, x: Inputs, u: Port)
    requires IsUnit(serves) && Inv(isa, s) && Allowed(isa, s, x) && !Flushes(s, x)
    requires Wired(serves, s, jobs, x, u) && Matched(s.w, serves, jobs)
    ensures IssueJob(isa, s, x, u).Some? ==> u.issue.Some? && forall j :: j in jobs ==> j.tag != IssueJob(isa, s, x, u).value.tag
  {
    hide Inv, Allowed, FrontHalf, AdvanceOne, Resolve, BusesOf, Wired, IsUnit;
    if u.issue.Some? {
      IssueStarts(isa, serves, s, jobs, x, u);
      LiveSize(isa, s);
      AgeOfTagAt(s.w.head, u.issue.value);
      forall j | j in jobs
        ensures j.tag != s.w.TagOf(u.issue.value)
      {
        assert Names(s.w, serves, j);
      }
    }
  }

  lemma JobStays<M>(isa: Isa<M>, serves: Serves, s: State<M>, jobs: seq<Jobs.Job>, x: Inputs, u: Port, j: Jobs.Job)
    requires IsUnit(serves) && Inv(isa, s) && Allowed(isa, s, x) && !Flushes(s, x)
    requires Wired(serves, s, jobs, x, u) && Matched(s.w, serves, jobs)
    requires (j in jobs && !(Granted(jobs, x) && j == jobs[0])) || IssueJob(isa, s, x, u) == Some(j)
    requires Recovers(s) && s.br.Some? ==> !Younger(j.tag, s.br.value, s.w.head)
    ensures Names(Next(isa, s, x).w, serves, j)
  {
    hide Inv, Allowed, Next, RetireCount, FrontHalf, Wired, IsUnit, Matched, IssueJob, Granted, Running, Flushes, Recovers;
    if IssueJob(isa, s, x, u) == Some(j) {
      IssueIsNew(isa, serves, s, jobs, x, u);
      NewJobNames(isa, serves, s, jobs, x, u);
    } else {
      OldJobStays(isa, serves, s, jobs, x, u, j);
    }
  }

  lemma NewJobNames<M>(isa: Isa<M>, serves: Serves, s: State<M>, jobs: seq<Jobs.Job>, x: Inputs, u: Port)
    requires IsUnit(serves) && Inv(isa, s) && Allowed(isa, s, x) && !Flushes(s, x)
    requires Wired(serves, s, jobs, x, u) && Matched(s.w, serves, jobs) && IssueJob(isa, s, x, u).Some? && u.issue.Some?
    ensures Names(Next(isa, s, x).w, serves, IssueJob(isa, s, x, u).value)
  {
    hide Inv, Allowed, Next, RetireCount, FrontHalf, AdvanceOne, Wired, IsUnit, Matched, IssueJob, Granted, Running, Flushes, Recovers;
    IssueStarts(isa, serves, s, jobs, x, u);
    UnfinishedStays(s, x.storeBufferFull, u.issue.value) by { LiveSize(isa, s); }
    RunningAfter(isa, serves, s, jobs, x, u, u.issue.value);
  }

  lemma OldJobStays<M>(isa: Isa<M>, serves: Serves, s: State<M>, jobs: seq<Jobs.Job>, x: Inputs, u: Port, j: Jobs.Job)
    requires IsUnit(serves) && Inv(isa, s) && Allowed(isa, s, x) && !Flushes(s, x)
    requires Wired(serves, s, jobs, x, u) && Matched(s.w, serves, jobs) && j in jobs && !(Granted(jobs, x) && j == jobs[0])
    requires Recovers(s) && s.br.Some? ==> !Younger(j.tag, s.br.value, s.w.head)
    ensures Names(Next(isa, s, x).w, serves, j)
  {
    hide Inv, Allowed, Next, RetireCount, FrontHalf, AdvanceOne, Wired, IsUnit, IssueJob, Granted, Flushes, Jobs.Distinct, Mispredicted;
    var i := s.w.IndexOf(j.tag);
    assert Names(s.w, serves, j);
    TagAtAge(j.tag, s.w.head);
    IssueNotRunning(isa, serves, s, jobs, x, u, i);
    FrontReaches(isa, s, x, i);
    if Granted(jobs, x) && jobs[0].tag == j.tag {
      SameJob(jobs, j);
    }
    UnfinishedStays(s, x.storeBufferFull, i);
    RunningAfter(isa, serves, s, jobs, x, u, i);
  }

  lemma FrontReaches<M>(isa: Isa<M>, s: State<M>, x: Inputs, i: nat)
    requires Inv(isa, s) && Allowed(isa, s, x) && !Flushes(s, x) && i < |s.w.ops|
    requires Recovers(s) && s.br.Some? ==> i <= s.w.IndexOf(s.br.value)
    ensures i < |FrontHalf(isa, s, x).w.ops|
  {
    hide Inv, Allowed, FrontHalf, Mispredicted;
    CoreBuffer.FrontFacts(isa, s, x);
  }

  lemma IssueNotRunning<M>(isa: Isa<M>, serves: Serves, s: State<M>, jobs: seq<Jobs.Job>, x: Inputs, u: Port, i: nat)
    requires IsUnit(serves) && Inv(isa, s) && Allowed(isa, s, x) && !Flushes(s, x) && Wired(serves, s, jobs, x, u) && Running(s.w, serves, i)
    ensures u.issue != Some(i)
  {
    hide Inv, Allowed, FrontHalf, AdvanceOne, Wired, IsUnit, IssueJob, Flushes;
    if u.issue.Some? {
      IssueStarts(isa, serves, s, jobs, x, u);
    }
  }

  lemma SameJob(jobs: seq<Jobs.Job>, j: Jobs.Job)
    requires Jobs.Distinct(jobs) && j in jobs && jobs[0].tag == j.tag
    ensures j == jobs[0]
  {
    var k :| 0 <= k < |jobs| && jobs[k] == j;
  }

  lemma RunningHasJob<M>(isa: Isa<M>, serves: Serves, s: State<M>, jobs: seq<Jobs.Job>, x: Inputs, u: Port, i': nat)
    requires IsUnit(serves) && Inv(isa, s) && Allowed(isa, s, x) && !Flushes(s, x)
    requires Wired(serves, s, jobs, x, u) && Matched(s.w, serves, jobs) && Running(Next(isa, s, x).w, serves, i')
    ensures exists j: Jobs.Job ::
              && j.tag == Next(isa, s, x).w.TagOf(i')
              && ((j in jobs && !(Granted(jobs, x) && j == jobs[0])) || IssueJob(isa, s, x, u) == Some(j))
              && (Recovers(s) && s.br.Some? ==> !Younger(j.tag, s.br.value, s.w.head))
  {
    hide Inv, Allowed, Next, RetireCount, FrontHalf, AdvanceOne, Wired, IsUnit, Matched, Running, Granted, IssueJob, Recovers;
    LiveSize(isa, s);
    CycleWindow(isa, s, x);
    CoreBuffer.FrontFacts(isa, s, x);
    RunningInside(Next(isa, s, x).w, serves, i');
    var i := i' + RetireCount(s, x.storeBufferFull);
    RunningAfter(isa, serves, s, jobs, x, u, i);
    SurvivorIsOlder(isa, s, x, i);
    AgeOfTagAt(s.w.head, i);
    if u.issue == Some(i) {
      IssueStarts(isa, serves, s, jobs, x, u);
    } else {
      var j := JobFor(s.w, serves, jobs, i);
    }
  }

  lemma RunningInside(w: Window, serves: Serves, i: nat)
    requires Running(w, serves, i)
    ensures i < |w.ops|
  {
  }

  lemma JobFor(w: Window, serves: Serves, jobs: seq<Jobs.Job>, i: nat) returns (j: Jobs.Job)
    requires Matched(w, serves, jobs) && Running(w, serves, i) && |w.ops| <= ROB_SIZE
    ensures j in jobs && j.tag == w.TagOf(i) && j.value == w.phases[i].out.value
  {
    hide Jobs.Distinct;
    j :| j in jobs && j.tag == w.TagOf(i);
    AgeOfTagAt(w.head, i);
    assert Names(w, serves, j);
  }
}
