/** Shares the common data buses that their owner units leave free. */
module CdbArbiter {
  import opened Prelude
  import opened OooPackage
  import opened Ranking

  function RequestAges(reqs: seq<Option<Tag>>, head: Tag): (a: Ages)
    ensures |a| == |reqs|
    ensures forall i :: 0 <= i < |reqs| ==> a[i] == if reqs[i].Some? then Some(Age(reqs[i].value, head)) else None
  {
    if |reqs| == 0 then []
    else
      var r := reqs[|reqs| - 1];
      RequestAges(reqs[..|reqs| - 1], head) + [if r.Some? then Some(Age(r.value, head)) else None]
  }

  type Free = f: seq<bool> | |f| == 3 witness [true, true, true]

  function FreeCount(free: Free): nat {
    (if free[0] then 1 else 0) + (if free[1] then 1 else 0) + (if free[2] then 1 else 0)
  }

  /** The rank that bus j carries if it is free: how many buses before it are free. */
  function SlotOf(free: Free, j: nat): nat
    requires j < 3
  {
    (if j > 0 && free[0] then 1 else 0) + (if j > 1 && free[1] then 1 else 0)
  }

  /** A bus carries the request of its rank if it is free and there is one; those requests are the granted ones. */
  ghost predicate Arbitrated(reqs: seq<Option<Tag>>, head: Tag, free: Free, bus: seq<Option<nat>>, grant: seq<bool>) {
    && |bus| == 3 && |grant| == |reqs|
    && (forall j :: 0 <= j < 3 ==>
          if bus[j].Some? then free[j] && HasRank(RequestAges(reqs, head), bus[j].value, SlotOf(free, j))
          else !free[j] || forall i: nat :: !HasRank(RequestAges(reqs, head), i, SlotOf(free, j)))
    && forall i :: 0 <= i < |reqs| ==> (grant[i] <==> bus[0] == Some(i) || bus[1] == Some(i) || bus[2] == Some(i))
  }

  /** Which request each bus carries, and which requests are granted. */
  method Arbitrate(reqs: seq<Option<Tag>>, head: Tag, free: Free) returns (bus: seq<Option<nat>>, grant: seq<bool>)
    ensures Arbitrated(reqs, head, free, bus, grant)
  {
    hide AheadOf;
    var ages := RequestAges(reqs, head);
    bus, grant := [None, None, None], [];
    for i := 0 to |reqs|
      invariant |bus| == 3 && |grant| == i
      invariant forall j :: 0 <= j < 3 ==>
                  if bus[j].Some? then bus[j].value < i && free[j] && HasRank(ages, bus[j].value, SlotOf(free, j))
                  else !free[j] || forall k :: 0 <= k < i ==> !HasRank(ages, k, SlotOf(free, j))
      invariant forall k :: 0 <= k < i ==> (grant[k] <==> bus[0] == Some(k) || bus[1] == Some(k) || bus[2] == Some(k))
    {
      var rank := CountAhead(ages, i);
      ghost var before := bus;
      for j := 0 to 3
        invariant |bus| == 3
        invariant forall b :: 0 <= b < j ==> bus[b] == if ages[i].Some? && free[b] && rank == SlotOf(free, b) then Some(i) else before[b]
        invariant forall b :: j <= b < 3 ==> bus[b] == before[b]
      {
        if ages[i].Some? && free[j] && rank == SlotOf(free, j) {
          bus := bus[j := Some(i)];
        }
      }
      forall b, k | 0 <= b < 3 && 0 <= k < i && before[b] == Some(k)
        ensures bus[b] == before[b]
      {
        if bus[b] != before[b] {
          RankUnique(ages, i, k, SlotOf(free, b));
        }
      }
      grant := grant + [bus[0] == Some(i) || bus[1] == Some(i) || bus[2] == Some(i)];
    }
  }

  /** A request is granted exactly if fewer requests are ahead of it than buses are free. */
  lemma GrantsTheOldest(reqs: seq<Option<Tag>>, head: Tag, free: Free, bus: seq<Option<nat>>, grant: seq<bool>, i: nat, n: nat)
    requires Arbitrated(reqs, head, free, bus, grant) && HasRank(RequestAges(reqs, head), i, n)
    ensures grant[i] <==> n < FreeCount(free)
  {
    hide AheadOf;
    var ages := RequestAges(reqs, head);
    if n < FreeCount(free) {
      var j := if free[0] && n == 0 then 0 else if free[1] && n == SlotOf(free, 1) then 1 else 2;
      assert free[j] && SlotOf(free, j) == n;
      assert bus[j].Some?;
      RankUnique(ages, bus[j].value, i, n);
    }
  }

  /** So no refused request is older than a granted one, and none is refused while a bus stays unused. */
  lemma RefusedAreYounger(reqs: seq<Option<Tag>>, head: Tag, free: Free, bus: seq<Option<nat>>, grant: seq<bool>, i: nat, r: nat)
    requires Arbitrated(reqs, head, free, bus, grant) && i < |reqs| && r < |reqs|
    requires reqs[i].Some? && reqs[r].Some? && grant[i] && !grant[r]
    ensures Age(reqs[i].value, head) <= Age(reqs[r].value, head)
    ensures forall j :: 0 <= j < 3 && free[j] ==> bus[j].Some?
  {
    hide AheadOf, Age;
    var ages := RequestAges(reqs, head);
    var m, n := |AheadOf(ages, i, |ages|)|, |AheadOf(ages, r, |ages|)|;
    GrantsTheOldest(reqs, head, free, bus, grant, i, m);
    GrantsTheOldest(reqs, head, free, bus, grant, r, n);
    LowerRankOlder(ages, i, m, r, n);
    forall j | 0 <= j < 3 && free[j]
      ensures bus[j].Some?
    {
      var k := RankBelow(ages, r, n, SlotOf(free, j));
    }
  }

  /** No two buses carry the same request. */
  lemma BusesDiffer(reqs: seq<Option<Tag>>, head: Tag, free: Free, bus: seq<Option<nat>>, grant: seq<bool>, j: nat, k: nat)
    requires Arbitrated(reqs, head, free, bus, grant) && j < k < 3 && bus[j].Some?
    ensures bus[j] != bus[k]
  {
    hide AheadOf;
  }

  /** The reorder buffer's head, if it requests, is refused only when every bus belongs to its owner. */
  lemma HeadRefusedMeansNoneFree(reqs: seq<Option<Tag>>, head: Tag, free: Free, bus: seq<Option<nat>>, grant: seq<bool>, i: nat)
    requires Arbitrated(reqs, head, free, bus, grant) && i < |reqs| && reqs[i] == Some(head) && !grant[i]
    requires forall k :: 0 <= k < |reqs| && k != i ==> reqs[k] != Some(head)
    ensures FreeCount(free) == 0
  {
    var ages := RequestAges(reqs, head);
    forall k: nat | k < |ages|
      ensures !Ahead(ages, k, i)
    {
      if k != i && reqs[k].Some? {
        TagAtAge(reqs[k].value, head);
        AgeOfTagAt(head, 0);
        TagAtZero(head);
      }
    }
    assert AheadOf(ages, i, |ages|) == {};
    GrantsTheOldest(reqs, head, free, bus, grant, i, 0);
  }
}
