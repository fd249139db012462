/** Ranks by age: for every candidate at once, how many other candidates are ahead of it. */
module Ranking {
  import opened Prelude

  /** The candidates' ages; None for a slot that is not a candidate. */
  type Ages = seq<Option<nat>>

  /** j is ahead of i: older, or equally old at a lower index. */
  predicate Ahead(ages: Ages, j: nat, i: nat)
    requires i < |ages| && j < |ages|
  {
    j != i && ages[j].Some? && ages[i].Some? &&
    (ages[j].value < ages[i].value || (ages[j].value == ages[i].value && j < i))
  }

  /** The candidates ahead of i, among the first n. */
  ghost function AheadOf(ages: Ages, i: nat, n: nat): set<nat>
    requires i < |ages| && n <= |ages|
  {
    set j: nat | j < n && Ahead(ages, j, i)
  }

  ghost predicate HasRank(ages: Ages, i: nat, k: nat) {
    i < |ages| && ages[i].Some? && |AheadOf(ages, i, |ages|)| == k
  }

  method CountAhead(ages: Ages, i: nat) returns (n: nat)
    requires i < |ages|
    ensures n == |AheadOf(ages, i, |ages|)|
  {
    hide Ahead;
    n := 0;
    for j := 0 to |ages|
      invariant n == |AheadOf(ages, i, j)|
    {
      assert AheadOf(ages, i, j + 1) == AheadOf(ages, i, j) + if Ahead(ages, j, i) then {j} else {};
      if Ahead(ages, j, i) {
        n := n + 1;
      }
    }
  }

  lemma AheadIsTransitive(ages: Ages, i: nat, j: nat)
    requires i < |ages| && j < |ages| && i != j && ages[i].Some? && ages[j].Some?
    ensures Ahead(ages, i, j) || Ahead(ages, j, i)
    ensures Ahead(ages, j, i) ==> AheadOf(ages, j, |ages|) + {j} <= AheadOf(ages, i, |ages|) && j !in AheadOf(ages, j, |ages|)
  {
  }

  lemma AheadIsCandidate(ages: Ages, j: nat, i: nat)
    requires i < |ages| && j < |ages| && Ahead(ages, j, i)
    ensures j != i && ages[j].Some? && ages[i].Some?
  {
  }

  lemma {:induction false} SubsetSmaller(a: set<nat>, b: set<nat>)
    requires a <= b
    ensures |a| <= |b|
  {
    if a != {} {
      var x :| x in a;
      SubsetSmaller(a - {x}, b - {x});
    }
  }

  /** Being ahead means having the smaller rank. */
  lemma AheadRanksLower(ages: Ages, j: nat, i: nat)
    requires i < |ages| && j < |ages| && Ahead(ages, j, i)
    ensures |AheadOf(ages, j, |ages|)| < |AheadOf(ages, i, |ages|)|
  {
    hide Ahead, AheadOf;
    AheadIsCandidate(ages, j, i);
    AheadIsTransitive(ages, i, j);
    SubsetSmaller(AheadOf(ages, j, |ages|) + {j}, AheadOf(ages, i, |ages|));
  }

  /** Ranks are one-hot: no two candidates share one. */
  lemma RankUnique(ages: Ages, i: nat, j: nat, k: nat)
    requires HasRank(ages, i, k) && HasRank(ages, j, k)
    ensures i == j
  {
    hide Ahead, AheadOf;
    if i != j {
      AheadIsTransitive(ages, i, j);
      if Ahead(ages, j, i) {
        AheadRanksLower(ages, j, i);
      } else {
        AheadRanksLower(ages, i, j);
      }
    }
  }

  /** And there are no gaps: below any rank that occurs, every rank occurs. */
  lemma {:induction false} RankBelow(ages: Ages, i: nat, n: nat, k: nat) returns (j: nat)
    requires HasRank(ages, i, n) && k <= n
    ensures HasRank(ages, j, k)
    decreases n
  {
    hide Ahead;
    if k == n {
      j := i;
    } else {
      var before := AheadOf(ages, i, |ages|);
      var last := LastAhead(ages, i, before);
      j := RankBelow(ages, last, n - 1, k);
    }
  }

  /** Of the candidates ahead of i, the last one has the rank just below. */
  lemma LastAhead(ages: Ages, i: nat, before: set<nat>) returns (last: nat)
    requires i < |ages| && before == AheadOf(ages, i, |ages|) && before != {}
    ensures HasRank(ages, last, |before| - 1)
  {
    last := MostAhead(ages, before);
    assert AheadOf(ages, last, |ages|) + {last} <= before;
    forall x | x in before && x != last
      ensures x in AheadOf(ages, last, |ages|)
    {
      AheadIsTransitive(ages, x, last);
      if Ahead(ages, last, x) {
        AheadRanksLower(ages, last, x);
      }
    }
    assert AheadOf(ages, last, |ages|) == before - {last};
  }

  lemma {:induction false} MostAhead(ages: Ages, s: set<nat>) returns (m: nat)
    requires s != {} && forall x :: x in s ==> x < |ages| && ages[x].Some?
    ensures m in s && forall x :: x in s ==> |AheadOf(ages, x, |ages|)| <= |AheadOf(ages, m, |ages|)|
    decreases s
  {
    hide AheadOf;
    var x :| x in s;
    if s == {x} {
      m := x;
    } else {
      var y := MostAhead(ages, s - {x});
      m := if |AheadOf(ages, y, |ages|)| < |AheadOf(ages, x, |ages|)| then x else y;
    }
  }

  /** If there is any candidate, one has rank 0. */
  lemma SomeoneFirst(ages: Ages, i: nat) returns (first: nat)
    requires i < |ages| && ages[i].Some?
    ensures HasRank(ages, first, 0)
  {
    first := RankBelow(ages, i, |AheadOf(ages, i, |ages|)|, 0);
  }

  /** A lower rank is never younger. */
  lemma LowerRankOlder(ages: Ages, i: nat, m: nat, j: nat, n: nat)
    requires HasRank(ages, i, m) && HasRank(ages, j, n) && m < n
    ensures ages[i].value <= ages[j].value
  {
    if Ahead(ages, j, i) {
      AheadRanksLower(ages, j, i);
    }
  }
}
