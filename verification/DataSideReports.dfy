/** Every operation the load/store unit takes is reported exactly once, unless it is squashed first. */
module DataSideReports {
  import opened Prelude
  import opened DataSide
  import DataSideTheorems

  /** The operations under way that will still be reported: in the output buffer, or an unsquashed load. */
  function Pending<P>(s: State<P>): set<nat> {
    (if s.out.Some? then {s.out.value.stamp} else {}) +
    (if s.ld.Some? && !s.ld.value.squashed then {s.ld.value.stamp} else {})
  }

  /** The operation whose result leaves on a bus this cycle. */
  function Reported<P>(s: State<P>, x: Inputs): Option<nat> {
    if x.grant && s.out.Some? then Some(s.out.value.stamp) else None
  }

  /** The operation taken from the queue head this cycle. */
  function Taken<P>(s: State<P>, x: Inputs): Option<nat> {
    if HeadTaken(s, x) && !x.flush then Some(x.head.value.Stamp()) else None
  }

  function AsSet(o: Option<nat>): set<nat> {
    if o.Some? then {o.value} else {}
  }

  /** History over a run: what was taken, what was reported, and what was squashed. */
  datatype Ledger = Ledger(taken: set<nat>, reported: seq<nat>, squashed: set<nat>)

  function LedgerNext<P>(p: Policy<P>, l: Ledger, s: State<P>, x: Inputs): Ledger
    requires Allowed(s, x)
  {
    var s' := Next(p, s, x);
    Ledger(l.taken + AsSet(Taken(s, x)),
           l.reported + (if Reported(s, x).Some? then [Reported(s, x).value] else []),
           l.squashed + (Pending(s) + AsSet(Taken(s, x)) - AsSet(Reported(s, x)) - Pending(s')))
  }

  ghost predicate Distinct(xs: seq<nat>) {
    forall i, j :: 0 <= i < j < |xs| ==> xs[i] != xs[j]
  }

  /** Each taken operation is in exactly one place, and reported at most once. */
  ghost predicate Balanced<P>(l: Ledger, s: State<P>) {
    && (forall t :: t in l.taken <==> t in l.reported || t in l.squashed || t in Pending(s))
    && (forall t :: t in l.reported ==> t !in l.squashed && t !in Pending(s))
    && (forall t :: t in l.squashed ==> t !in Pending(s))
    && Distinct(l.reported) && (forall t :: t in l.taken ==> t < s.nextStamp)
    && (s.out.Some? && s.ld.Some? && !s.ld.value.squashed ==> s.out.value.stamp != s.ld.value.stamp)
  }

  /** What is pending after a cycle was pending before it, and not reported, or was just taken. */
  lemma PendingMoves<P>(p: Policy<P>, s: State<P>, x: Inputs)
    requires Allowed(s, x)
    requires s.out.Some? && s.ld.Some? && !s.ld.value.squashed ==> s.out.value.stamp != s.ld.value.stamp
    requires forall t :: t in Pending(s) ==> t < s.nextStamp
    ensures var s' := Next(p, s, x);
            && Pending(s') <= Pending(s) + AsSet(Taken(s, x)) - AsSet(Reported(s, x))
            && (s'.out.Some? && s'.ld.Some? && !s'.ld.value.squashed ==> s'.out.value.stamp != s'.ld.value.stamp)
  {
    hide MemoryNext, LinesNext, PolicyNext, ReadNext, QueueNext, FillNext, StartUncached, DroppedNext, Stalls, LoadResult, QueueValue,
         QueueForward, HeadOp.IsMisaligned, Drains;
  }

  lemma BalancedStep<P>(p: Policy<P>, l: Ledger, s: State<P>, x: Inputs)
    requires Allowed(s, x) && Balanced(l, s)
    ensures Balanced(LedgerNext(p, l, s, x), Next(p, s, x))
  {
    hide Next, Pending, HeadTaken;
    PendingMoves(p, s, x);
    StampsGrow(p, s, x);
    OutIsPending(s);
    var l' := LedgerNext(p, l, s, x);
    if Reported(s, x).Some? {
      assert l'.reported == l.reported + [Reported(s, x).value];
    }
  }

  lemma OutIsPending<P>(s: State<P>)
    ensures s.out.Some? ==> s.out.value.stamp in Pending(s)
  {
  }

  lemma StampsGrow<P>(p: Policy<P>, s: State<P>, x: Inputs)
    requires Allowed(s, x)
    ensures s.nextStamp <= Next(p, s, x).nextStamp
    ensures Taken(s, x).Some? ==> s.nextStamp <= Taken(s, x).value < Next(p, s, x).nextStamp
  {
    hide MemoryNext, LinesNext, PolicyNext, ReadNext, LoadNext, OutNext, QueueNext, FillNext, StartUncached, DroppedNext, HeadOutFree, Drains;
  }

  /** Without a recovery or a flush nothing is lost: whatever was pending or taken is pending or reported. With
      a recovery only operations younger than the branch are, and none of those stays pending. */
  lemma OnlySquashesLose<P>(p: Policy<P>, l: Ledger, s: State<P>, x: Inputs)
    requires Allowed(s, x) && Balanced(l, s)
    ensures var (l', s') := (LedgerNext(p, l, s, x), Next(p, s, x));
            && (!x.flush && x.squash.None? ==> l'.squashed == l.squashed)
            && (!x.flush && x.squash.Some? ==>
                  && (forall t :: t in l'.squashed && t !in l.squashed ==> t > x.squash.value)
                  && (forall t :: t in Pending(s') ==> t <= x.squash.value))
            && (x.flush ==> Pending(s') == {})
  {
    hide MemoryNext, LinesNext, PolicyNext, ReadNext, QueueNext, FillNext, StartUncached, DroppedNext, Stalls, LoadResult, QueueValue,
         QueueForward, HeadOp.IsMisaligned, Drains;
    if !x.flush {
      NothingLost(p, s, x);
    }
  }

  lemma NothingLost<P>(p: Policy<P>, s: State<P>, x: Inputs)
    requires Allowed(s, x) && !x.flush
    ensures forall t :: (t in Pending(s) || Taken(s, x) == Some(t)) && Reported(s, x) != Some(t) && t !in Pending(Next(p, s, x)) ==>
              x.squash.Some? && t > x.squash.value
  {
    hide MemoryNext, LinesNext, PolicyNext, ReadNext, QueueNext, FillNext, StartUncached, DroppedNext, Stalls, LoadResult, QueueValue,
         QueueForward, HeadOp.IsMisaligned, Drains;
  }

  /** The same of one operation. */
  lemma NotLost<P>(p: Policy<P>, s: State<P>, x: Inputs, t: nat)
    requires Allowed(s, x) && !x.flush && (x.squash.Some? ==> t <= x.squash.value)
    requires (t in Pending(s) || Taken(s, x) == Some(t)) && Reported(s, x) != Some(t)
    ensures t in Pending(Next(p, s, x))
  {
    hide Next, Pending, Taken, Reported;
    NothingLost(p, s, x);
  }

  // ---- runs ----

  ghost function LedgerAt<P(!new)>(p: Policy<P>, states: seq<State<P>>, inputs: seq<Inputs>, n: nat): Ledger
    requires DataSideTheorems.IsRun(p, states, inputs) && n < |states|
  {
    if n == 0 then Ledger({}, [], {}) else LedgerNext(p, LedgerAt(p, states, inputs, n - 1), states[n - 1], inputs[n - 1])
  }

  /** At every point of every run, each operation taken so far has been reported once, was squashed and never
      reported, or is still under way. */
  lemma {:induction false} ReportedOnce<P(!new)>(p: Policy<P>, states: seq<State<P>>, inputs: seq<Inputs>, n: nat)
    requires DataSideTheorems.IsRun(p, states, inputs) && n < |states|
    ensures Balanced(LedgerAt(p, states, inputs, n), states[n])
  {
    hide Balanced, LedgerNext, Next, Allowed;
    if n == 0 {
      StartsBalanced(p, states[0]);
    } else {
      ReportedOnce(p, states, inputs, n - 1);
      BalancedStep(p, LedgerAt(p, states, inputs, n - 1), states[n - 1], inputs[n - 1]);
    }
  }

  lemma StartsBalanced<P(!new)>(p: Policy<P>, s: State<P>)
    requires DataSideTheorems.Reset(p, s)
    ensures Balanced(Ledger({}, [], {}), s)
  {
  }
}
