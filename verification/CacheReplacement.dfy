/** The data cache under tree pseudo-LRU: a line in use is not the next one to go. */
module CacheReplacement {
  import opened Prelude
  import opened PowersOfTwo
  import opened DataSide
  import opened DataSideInvariant
  import opened DataSideTheorems
  import opened Replacement

  /** The design's policy for 2^k lines. */
  function Plru(k: nat): Policy<Tree> {
    Policy((t: Tree) => if |t| == Pow2(k) - 1 then PolicyVictim(t, k) else 0, (t: Tree, line: nat) => TouchLine(t, k, line))
  }

  ghost predicate IsPlruRun(k: nat, states: seq<State<Tree>>, inputs: seq<Inputs>) {
    IsRun(Plru(k), states, inputs) && Replacement.Sized(states[0].pol, k) && |states[0].lines| == Pow2(k)
  }

  /** The cycle uses line l: it completes l's refill, a drained store hits it, or a load does while neither happens. */
  predicate UsesLine(p: Policy<Tree>, s: State<Tree>, l: nat) {
    if s.fill then s.count == 8 && l == Victim(p, s.lines, s.pol)
    else if Drains(s) && s.Cacheable(s.sb[0].addr) && HitLine(s.lines, s.sb[0].addr.line).Some? then
      HitLine(s.lines, s.sb[0].addr.line) == Some(l)
    else LoadHits(s) && HitLine(s.lines, s.ld.value.addr.line) == Some(l)
  }

  /** It uses some line. */
  predicate Uses(s: State<Tree>) {
    if s.fill then s.count == 8
    else (Drains(s) && s.Cacheable(s.sb[0].addr) && HitLine(s.lines, s.sb[0].addr.line).Some?) || LoadHits(s)
  }

  /** How many cycles from n to m use a line. */
  function UsesBetween(states: seq<State<Tree>>, n: nat, m: nat): nat
    requires n <= m <= |states|
  {
    if m == n then 0 else UsesBetween(states, n, m - 1) + if Uses(states[m - 1]) then 1 else 0
  }

  lemma UsesMeans(p: Policy<Tree>, s: State<Tree>)
    ensures if Uses(s) then exists l: nat :: UsesLine(p, s, l) else forall l: nat :: !UsesLine(p, s, l)
  {
    hide HitLine;
    if Uses(s) {
      var l: nat := if s.fill then Victim(p, s.lines, s.pol)
                    else if Drains(s) && s.Cacheable(s.sb[0].addr) && HitLine(s.lines, s.sb[0].addr.line).Some? then HitLine(s.lines, s.sb[0].addr.line).value
                    else HitLine(s.lines, s.ld.value.addr.line).value;
      assert UsesLine(p, s, l);
    }
  }

  /** The replacement state is touched at the line that is used, and only then. */
  lemma PolicyFollows(k: nat, s: State<Tree>, x: Inputs)
    requires Allowed(s, x) && Fits(Plru(k), s)
    ensures var s' := Next(Plru(k), s, x);
            && |s'.lines| == |s.lines|
            && (!Uses(s) ==> s'.pol == s.pol)
            && forall l: nat :: UsesLine(Plru(k), s, l) ==> l < |s.lines| && s'.pol == TouchLine(s.pol, k, l)
  {
    hide HitLine, Walk, Touch, MemoryNext, ReadNext, LoadNext, OutNext, QueueNext, FillNext, DroppedNext, StartUncached;
  }

  lemma {:induction false} StaysSized(k: nat, states: seq<State<Tree>>, inputs: seq<Inputs>, n: nat)
    requires IsPlruRun(k, states, inputs) && n < |states|
    ensures Replacement.Sized(states[n].pol, k) && |states[n].lines| == Pow2(k) && Fits(Plru(k), states[n])
  {
    hide Allowed, Next, Inv, Plru, Reset, UsesLine, Uses, Fits;
    Reachable(Plru(k), states, inputs, n);
    FitsIs(Plru(k), states[0].ram, states[n]);
    if n > 0 {
      StaysSized(k, states, inputs, n - 1);
      assert states[n] == Next(Plru(k), states[n - 1], inputs[n - 1]);
      PolicyFollows(k, states[n - 1], inputs[n - 1]);
      UsesMeans(Plru(k), states[n - 1]);
    }
  }

  lemma FitsIs(p: Policy<Tree>, ram0: seq<Bytes.Words>, s: State<Tree>)
    requires Inv(p, ram0, s)
    ensures Fits(p, s) && Refilling(p, s) && TagsDiffer(s.lines, |s.ram|)
  {
    hide Fits, Refilling, TagsDiffer, Written, Coherent, Waiting, Ordered, OlderExact, LoadSees, OutRight;
  }

  /** From a use of l on, the tree has been touched at l and then at the lines used since. */
  lemma {:induction false} TouchedSince(k: nat, states: seq<State<Tree>>, inputs: seq<Inputs>, n: nat, l: nat, m: nat) returns (others: seq<nat>)
    requires IsPlruRun(k, states, inputs) && n < m < |states| && UsesLine(Plru(k), states[n], l)
    ensures l < Pow2(k) && states[m].pol == TouchLines(TouchLine(states[n].pol, k, l), k, others)
    ensures |others| == UsesBetween(states, n + 1, m) && forall i :: 0 <= i < |others| ==> others[i] < Pow2(k)
    decreases m
  {
    hide Allowed, Next, Plru, Reset, UsesLine, Uses, Fits, Touch;
    StaysSized(k, states, inputs, m - 1);
    assert states[m] == Next(Plru(k), states[m - 1], inputs[m - 1]);
    PolicyFollows(k, states[m - 1], inputs[m - 1]);
    UsesMeans(Plru(k), states[m - 1]);
    if m == n + 1 {
      others := [];
    } else {
      others := TouchedSince(k, states, inputs, n, l, m - 1);
      if Uses(states[m - 1]) {
        var next: nat :| UsesLine(Plru(k), states[m - 1], next);
        assert (others + [next])[..|others|] == others;
        others := others + [next];
      }
    }
  }

  /** So it is not the policy's victim while fewer than k further cycles use a line. */
  lemma NotPolicyVictim(k: nat, states: seq<State<Tree>>, inputs: seq<Inputs>, n: nat, l: nat, m: nat)
    requires IsPlruRun(k, states, inputs) && n < m < |states| && UsesLine(Plru(k), states[n], l) && UsesBetween(states, n + 1, m) < k
    ensures Replacement.Sized(states[m].pol, k) && PolicyVictim(states[m].pol, k) != l
  {
    hide IsPlruRun, UsesLine, Uses, Plru, Touch, Walk;
    StaysSized(k, states, inputs, n);
    StaysSized(k, states, inputs, m);
    var others := TouchedSince(k, states, inputs, n, l, m);
    TouchedIsSafe(states[n].pol, k, l, others);
  }

  /** A valid line stays what it is unless a refill writes into it. */
  lemma LineStays(k: nat, s: State<Tree>, x: Inputs, l: nat)
    requires Allowed(s, x) && Fits(Plru(k), s) && l < |s.lines| && s.lines[l].valid && Victim(Plru(k), s.lines, s.pol) != l
    ensures var s' := Next(Plru(k), s, x); l < |s'.lines| && s'.lines[l].valid && s'.lines[l].tag == s.lines[l].tag
  {
    hide HitLine, Victim, MemoryNext, ReadNext, LoadNext, OutNext, QueueNext, FillNext, DroppedNext, StartUncached, PolicyNext, Bytes.Merge;
  }

  /** A used line is valid from the next cycle on. */
  lemma UsedIsValid(k: nat, s: State<Tree>, x: Inputs, l: nat)
    requires Allowed(s, x) && Fits(Plru(k), s) && Refilling(Plru(k), s) && UsesLine(Plru(k), s, l)
    ensures var s' := Next(Plru(k), s, x); l < |s'.lines| && s'.lines[l].valid
  {
    hide HitLine, Victim, MemoryNext, ReadNext, LoadNext, OutNext, QueueNext, FillNext, DroppedNext, StartUncached, PolicyNext, Bytes.Merge;
  }

  /** In every run with 2^k lines, a line that a load or a drained store hits, or that a refill has just brought in, stays
      in the cache, and is not the line the next refill would replace, while fewer than k further cycles use a line. */
  lemma {:induction false} UsedLineStays(k: nat, states: seq<State<Tree>>, inputs: seq<Inputs>, n: nat, l: nat, m: nat)
    requires IsPlruRun(k, states, inputs) && n < m < |states| && UsesLine(Plru(k), states[n], l) && UsesBetween(states, n + 1, m) < k
    ensures l < |states[m].lines| && l < |states[n + 1].lines|
    ensures states[m].lines[l].valid && states[m].lines[l].tag == states[n + 1].lines[l].tag
    ensures Victim(Plru(k), states[m].lines, states[m].pol) != l
    decreases m
  {
    hide Allowed, Next, Inv, Reset, UsesLine, Uses, Fits, Refilling, TagsDiffer, PolicyVictim;
    StaysSized(k, states, inputs, m - 1);
    StaysSized(k, states, inputs, m);
    assert states[m] == Next(Plru(k), states[m - 1], inputs[m - 1]);
    NotPolicyVictim(k, states, inputs, n, l, m);
    if m == n + 1 {
      Reachable(Plru(k), states, inputs, n);
      FitsIs(Plru(k), states[0].ram, states[n]);
      UsedIsValid(k, states[n], inputs[n], l);
    } else {
      UsedLineStays(k, states, inputs, n, l, m - 1);
      LineStays(k, states[m - 1], inputs[m - 1], l);
    }
  }
}
