/** Whatever a shared unit asks the buses for is a live instruction's own result. */
module CoreUnits {
  import opened Prelude
  import opened OooPackage
  import opened Isa
  import opened Wakeup
  import opened Dataflow
  import opened Core
  import opened CoreInvariant
  import opened CoreTable
  import opened CoreCycle
  import opened CoreUnitSteps
  import CoreTheorems
  import Jobs
  import IntMultiplier

  // ---- runs ----

  /** A run of the back end and of the unit's jobs, wired together. */
  ghost predicate IsRun<M>(isa: Isa<M>, serves: Serves, states: seq<State<M>>, inputs: seq<Inputs>, jobs: seq<seq<Jobs.Job>>, ports: seq<Port>) {
    && Decodes(isa) && IsUnit(serves) && CoreTheorems.IsRun(isa, states, inputs)
    && |jobs| == |states| && |ports| == |inputs| && jobs[0] == []
    && forall i :: 0 <= i < |inputs| && i + 1 < |states| ==>
         && Allowed(isa, states[i], inputs[i]) && Wired(serves, states[i], jobs[i], inputs[i], ports[i])
         && jobs[i + 1] == Jobs.Next(jobs[i], UnitInputs(isa, states[i], jobs[i], inputs[i], ports[i]))
  }

  lemma {:induction false} AlwaysMatched<M>(isa: Isa<M>, serves: Serves, states: seq<State<M>>, inputs: seq<Inputs>, jobs: seq<seq<Jobs.Job>>,
                                            ports: seq<Port>, n: nat)
    requires IsRun(isa, serves, states, inputs, jobs, ports) && n < |states|
    ensures Inv(isa, states[n]) && Matched(states[n].w, serves, jobs[n])
  {
    hide Inv, Allowed, Next, Wired, Jobs.Next, Matched, UnitInputs, CoreTheorems.IsRun, Decodes, IsUnit;
    CoreTheorems.Reachable(isa, states, inputs, n);
    if n == 0 {
      StartsMatched(isa, serves, states, inputs);
    } else {
      AlwaysMatched(isa, serves, states, inputs, jobs, ports, n - 1);
      CoreTheorems.RunLength(isa, states, inputs);
      CoreTheorems.RunStep(isa, states, inputs, n - 1);
      MatchedStep(isa, serves, states[n - 1], jobs[n - 1], inputs[n - 1], ports[n - 1]);
    }
  }

  lemma StartsMatched<M>(isa: Isa<M>, serves: Serves, states: seq<State<M>>, inputs: seq<Inputs>)
    requires CoreTheorems.IsRun(isa, states, inputs)
    ensures |states| > 0 && Matched(states[0].w, serves, [])
  {
    hide Allowed, Next;
  }

  /** In every cycle of every run, what the unit asks for a bus with is the tag of a live, executing instruction of
      its own and the value program order gives that instruction; and every executing instruction of the unit is
      one of its jobs, so it will ask for it too. */
  lemma RequestsAreResults<M>(isa: Isa<M>, serves: Serves, states: seq<State<M>>, inputs: seq<Inputs>, jobs: seq<seq<Jobs.Job>>,
                              ports: seq<Port>, n: nat, k: nat)
    requires IsRun(isa, serves, states, inputs, jobs, ports) && n < |states| && k < |jobs[n]|
    ensures states[n].Shape()
    ensures var (s, j) := (states[n], jobs[n][k]);
            && s.w.Live(j.tag) && serves(s.w.ops[s.w.IndexOf(j.tag)].instr) && s.w.phases[s.w.IndexOf(j.tag)].Executing?
            && j.value == Spec(isa, s.Flow(), s.w.ops, s.w.IndexOf(j.tag)).value
            && forall l :: 0 <= l < |jobs[n]| && jobs[n][l].tag == j.tag ==> l == k
  {
    hide IsRun, InOrder, Operands, Stores, Histories, Renaming, Units, Spec;
    RunParts(isa, serves, states, inputs, jobs, ports);
    AlwaysMatched(isa, serves, states, inputs, jobs, ports, n);
    assert Names(states[n].w, serves, jobs[n][k]);
  }

  lemma ExecutingIsAJob<M>(isa: Isa<M>, serves: Serves, states: seq<State<M>>, inputs: seq<Inputs>, jobs: seq<seq<Jobs.Job>>,
                           ports: seq<Port>, n: nat, i: nat)
    requires IsRun(isa, serves, states, inputs, jobs, ports) && n < |states| && Running(states[n].w, serves, i)
    ensures exists j :: j in jobs[n] && j.tag == states[n].w.TagOf(i) && j.value == states[n].w.phases[i].out.value
  {
    hide IsRun, Inv, Matched, Running;
    AlwaysMatched(isa, serves, states, inputs, jobs, ports, n);
    RunParts(isa, serves, states, inputs, jobs, ports);
    LiveSize(isa, states[n]);
    RunningInside(states[n].w, serves, i);
    var j := JobFor(states[n].w, serves, jobs[n], i);
  }

  /** The bus the unit is granted carries exactly what the unit drives onto it: its own tag and its own value. */
  lemma UnitDrivesItsBus<M>(isa: Isa<M>, serves: Serves, states: seq<State<M>>, inputs: seq<Inputs>, jobs: seq<seq<Jobs.Job>>,
                            ports: seq<Port>, n: nat)
    requires IsRun(isa, serves, states, inputs, jobs, ports) && n < |inputs| && n < |states| && Granted(jobs[n], inputs[n])
    requires !Flushes(states[n], inputs[n])
    ensures var (b, x, j) := (BusesOf(states[n], inputs[n]), inputs[n], jobs[n][0]);
            && (x.bus0 == Some(j.tag) ==> b.bus0 == Cdb(true, j.tag, j.value))
            && (x.bus1 == Some(j.tag) ==> b.bus1 == Cdb(true, j.tag, j.value))
            && (x.bus2 == Some(j.tag) ==> b.bus2 == Cdb(true, j.tag, j.value))
  {
    hide IsRun, Inv, Allowed, Next;
    AlwaysMatched(isa, serves, states, inputs, jobs, ports, n);
    RunParts(isa, serves, states, inputs, jobs, ports);
    CoreTheorems.RunLength(isa, states, inputs);
    CoreTheorems.RunStep(isa, states, inputs, n);
    BusFree(isa, states[n], inputs[n]);
    assert Names(states[n].w, serves, jobs[n][0]);
  }

  lemma RunParts<M>(isa: Isa<M>, serves: Serves, states: seq<State<M>>, inputs: seq<Inputs>, jobs: seq<seq<Jobs.Job>>, ports: seq<Port>)
    requires IsRun(isa, serves, states, inputs, jobs, ports)
    ensures CoreTheorems.IsRun(isa, states, inputs) && |jobs| == |states|
  {
    hide CoreTheorems.IsRun, Allowed, Wired, Jobs.Next, UnitInputs;
  }

  // ---- the integer multiplier ----

  /** What the instruction set computes for the unit's instructions is a product. */
  ghost predicate Multiplies<M>(isa: Isa<M>, serves: Serves, kind: Instr -> IntMultiplier.Kind) {
    forall i: Instr, pc: Word, a: Word, b: Word :: serves(i) ==>
      isa.compute(i, pc, a, b) == IntMultiplier.Product(IntMultiplier.Op(0, 0, kind(i), a, b))
  }

  /** The operation the multiplier is given; `id` is history. */
  function IssueOp<M>(isa: Isa<M>, kind: Instr -> IntMultiplier.Kind, s: State<M>, x: Inputs, u: Port, id: nat): Option<IntMultiplier.Op>
    requires Allowed(isa, s, x)
  {
    if !Flushes(s, x) && IssueJob(isa, s, x, u).Some? then
      var s1 := FrontHalf(isa, s, x);
      var op, p := s1.w.ops[u.issue.value], s1.w.phases[u.issue.value];
      Some(IntMultiplier.Op(id, s1.w.TagOf(u.issue.value), kind(op.instr),
                            Resolve(p.op1, BusesOf(s1, x), SpecStation(op.instr.cls)),
                            Resolve(p.op2, BusesOf(s1, x), SpecStation(op.instr.cls))))
    else None
  }

  /** The multiplier's inputs as the core wires them. */
  ghost predicate Drives<M>(isa: Isa<M>, kind: Instr -> IntMultiplier.Kind, s: State<M>, m: IntMultiplier.Unit, x: Inputs, u: Port,
                            y: IntMultiplier.UnitInputs)
    requires Allowed(isa, s, x)
  {
    && y.flush == Flushes(s, x) && y.issue == IssueOp(isa, kind, s, x, u, m.log.next) && (y.issue.Some? ==> y.advance)
    && y.grant == Granted(Jobs.JobsOf(m.pending), x) && y.head == s.w.head
    && y.squash == if !Flushes(s, x) && Recovers(s) then s.br else None
  }

  lemma IssuedOpIsJob<M>(isa: Isa<M>, serves: Serves, kind: Instr -> IntMultiplier.Kind, s: State<M>, jobs: seq<Jobs.Job>, x: Inputs, u: Port, id: nat)
    requires Multiplies(isa, serves, kind) && IsUnit(serves) && Inv(isa, s) && Allowed(isa, s, x) && Wired(serves, s, jobs, x, u)
    ensures var op := IssueOp(isa, kind, s, x, u, id);
            (if op.Some? then Some(Jobs.JobOf(op.value)) else None) == UnitInputs(isa, s, jobs, x, u).issue
  {
    hide Inv, Allowed, FrontHalf, BusesOf, Resolve, Wired, IsUnit, IntMultiplier.Product, Flushes, Granted, Recovers;
    if !Flushes(s, x) && IssueJob(isa, s, x, u).Some? {
      IssueStarts(isa, serves, s, jobs, x, u) by { IssueFromPort(isa, s, x, u); }
      SameProduct(IssueOp(isa, kind, s, x, u, id).value);
    }
  }

  lemma IssueFromPort<M>(isa: Isa<M>, s: State<M>, x: Inputs, u: Port)
    requires Allowed(isa, s, x) && !Flushes(s, x) && IssueJob(isa, s, x, u).Some?
    ensures u.issue.Some?
  {
    hide Allowed, FrontHalf, BusesOf, Resolve, Flushes;
  }

  lemma SameProduct(op: IntMultiplier.Op)
    ensures IntMultiplier.Product(op) == IntMultiplier.Product(IntMultiplier.Op(0, 0, op.kind, op.a, op.b))
  {
  }

  /** A run of the back end and of the multiply unit, wired together; `jobs` is the unit's list as the core sees it. */
  ghost predicate IsMultiplierRun<M>(isa: Isa<M>, serves: Serves, kind: Instr -> IntMultiplier.Kind, states: seq<State<M>>, inputs: seq<Inputs>,
                                     ports: seq<Port>, units: seq<IntMultiplier.Unit>, drives: seq<IntMultiplier.UnitInputs>, jobs: seq<seq<Jobs.Job>>) {
    && Decodes(isa) && IsUnit(serves) && Multiplies(isa, serves, kind)
    && CoreTheorems.IsRun(isa, states, inputs) && IntMultiplier.IsRun(units, drives)
    && |units| == |jobs| == |states| && |ports| == |inputs|
    && (forall i :: 0 <= i < |jobs| ==> jobs[i] == Jobs.JobsOf(units[i].pending))
    && forall i :: 0 <= i < |inputs| && i < |drives| ==>
         && Allowed(isa, states[i], inputs[i]) && Wired(serves, states[i], jobs[i], inputs[i], ports[i])
         && Drives(isa, kind, states[i], units[i], inputs[i], ports[i], drives[i])
  }

  /** One cycle of the unit as the core drives it is one cycle of its jobs. */
  lemma DrivenStep<M>(isa: Isa<M>, serves: Serves, kind: Instr -> IntMultiplier.Kind, s: State<M>, m: IntMultiplier.Unit, x: Inputs, u: Port,
                      y: IntMultiplier.UnitInputs)
    requires Multiplies(isa, serves, kind) && IsUnit(serves) && Inv(isa, s) && Allowed(isa, s, x)
    requires Wired(serves, s, Jobs.JobsOf(m.pending), x, u) && Drives(isa, kind, s, m, x, u, y)
    ensures Jobs.JobsOf(IntMultiplier.UnitNext(m, y).pending) ==
            Jobs.Next(Jobs.JobsOf(m.pending), UnitInputs(isa, s, Jobs.JobsOf(m.pending), x, u))
  {
    hide Inv, Allowed, IssueOp, IssueJob, Wired, IsUnit, Multiplies, IntMultiplier.UnitNext, Jobs.JobsOf, Jobs.JobOf, Flushes, Granted, Recovers;
    var jobs := Jobs.JobsOf(m.pending);
    IssuedOpIsJob(isa, serves, kind, s, jobs, x, u, m.log.next);
    Jobs.MultiplyUnitIsJobs(m, y);
    var z := UnitInputs(isa, s, jobs, x, u);
    SameWhenFlushed(jobs, z, Jobs.Inputs(y.flush, if y.advance && y.issue.Some? then Some(Jobs.JobOf(y.issue.value)) else None, y.grant, y.squash, y.head));
  }

  lemma SameWhenFlushed(jobs: seq<Jobs.Job>, x: Jobs.Inputs, y: Jobs.Inputs)
    requires x.flush == y.flush && (!x.flush ==> x == y)
    ensures Jobs.Next(jobs, x) == Jobs.Next(jobs, y)
  {
  }

  lemma MultiplierIsAUnit<M>(isa: Isa<M>, serves: Serves, kind: Instr -> IntMultiplier.Kind, states: seq<State<M>>, inputs: seq<Inputs>,
                             ports: seq<Port>, units: seq<IntMultiplier.Unit>, drives: seq<IntMultiplier.UnitInputs>, jobs: seq<seq<Jobs.Job>>)
    requires IsMultiplierRun(isa, serves, kind, states, inputs, ports, units, drives, jobs)
    ensures IsRun(isa, serves, states, inputs, jobs, ports)
  {
    hide Inv, Allowed, Wired, Drives, IsUnit, Multiplies, IntMultiplier.UnitNext, IntMultiplier.UnitAllowed, Jobs.Next, UnitInputs, Decodes,
         CoreTheorems.IsRun;
    CoreTheorems.RunLength(isa, states, inputs);
    forall i | 0 <= i < |inputs| && i + 1 < |states|
      ensures jobs[i + 1] == Jobs.Next(jobs[i], UnitInputs(isa, states[i], jobs[i], inputs[i], ports[i]))
    {
      CoreTheorems.Reachable(isa, states, inputs, i);
      DrivenStep(isa, serves, kind, states[i], units[i], inputs[i], ports[i], drives[i]);
    }
  }

  /** So whatever the multiplier asks for a bus with, under any stalls and recoveries, is a live, executing multiply
      instruction's own tag and the product program order gives it. */
  lemma MultiplierRequestIsResult<M>(isa: Isa<M>, serves: Serves, kind: Instr -> IntMultiplier.Kind, states: seq<State<M>>, inputs: seq<Inputs>,
                                     ports: seq<Port>, units: seq<IntMultiplier.Unit>, drives: seq<IntMultiplier.UnitInputs>,
                                     jobs: seq<seq<Jobs.Job>>, n: nat)
    requires IsMultiplierRun(isa, serves, kind, states, inputs, ports, units, drives, jobs) && n < |states| && n < |units| && units[n].pending != []
    ensures states[n].Shape()
    ensures var (s, op) := (states[n], units[n].pending[0]);
            && s.w.Live(op.tag) && serves(s.w.ops[s.w.IndexOf(op.tag)].instr) && s.w.phases[s.w.IndexOf(op.tag)].Executing?
            && IntMultiplier.Product(op) == Spec(isa, s.Flow(), s.w.ops, s.w.IndexOf(op.tag)).value
  {
    hide IsRun, Spec, IntMultiplier.Product, Allowed, Wired, Drives, IsUnit, Multiplies, IntMultiplier.IsRun, CoreTheorems.IsRun;
    MultiplierIsAUnit(isa, serves, kind, states, inputs, ports, units, drives, jobs);
    RequestsAreResults(isa, serves, states, inputs, jobs, ports, n, 0);
  }
}
