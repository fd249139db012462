/** The two replacement policies of the fully associative caches. */
module Replacement {
  import opened PowersOfTwo

  // ---- tree pseudo-LRU ----

  /** The tree's bits, heap ordered: node n has children 2n + 1 and 2n + 2. A set bit means "the victim is on
      the right". With k levels the leaves are nodes 2^k - 1 and up, one for each of the 2^k lines. */
  type Tree = seq<bool>

  function Parent(node: nat): (p: nat)
    requires node > 0
    ensures p < node
  {
    (node - 1) / 2
  }

  function Depth(node: nat): nat {
    if node == 0 then 0 else 1 + Depth(Parent(node))
  }

  ghost predicate Sized(tree: Tree, k: nat) {
    |tree| == Pow2(k) - 1
  }

  function Leaf(k: nat, line: nat): nat {
    Pow2(k) - 1 + line
  }

  /** Whether the bit of node's parent points to node: right children have even indices. */
  predicate PointsTo(tree: Tree, node: nat)
    requires 0 < node && Parent(node) < |tree|
  {
    tree[Parent(node)] == (node % 2 == 0)
  }

  /** How many bits on the way from the root to a node point toward it. */
  function Toward(tree: Tree, node: nat): (n: nat)
    ensures n <= Depth(node)
  {
    if node == 0 || Parent(node) >= |tree| then 0 else Toward(tree, Parent(node)) + if PointsTo(tree, node) then 1 else 0
  }

  /** A touch makes every bit on the path point away. */
  function Touch(tree: Tree, node: nat): (t: Tree)
    ensures |t| == |tree|
    decreases node
  {
    if node == 0 || Parent(node) >= |tree| then tree else Touch(tree[Parent(node) := node % 2 == 1], Parent(node))
  }

  /** The node the bits lead to from `node` in n levels. */
  function Walk(tree: Tree, node: nat, n: nat): nat
    decreases n
  {
    if n == 0 || node >= |tree| then node else Walk(tree, 2 * node + if tree[node] then 2 else 1, n - 1)
  }

  /** The nodes of depth d are the 2^d ones from 2^d - 1. */
  lemma {:induction false} DepthRange(node: nat, d: nat)
    ensures Depth(node) == d <==> Pow2(d) - 1 <= node <= 2 * Pow2(d) - 2
    decreases d
  {
    if node == 0 {
      PowPositive(d);
      if d > 0 {
        PowPositive(d - 1);
      }
    } else if d > 0 {
      DepthRange(Parent(node), d - 1);
      assert Pow2(d) == 2 * Pow2(d - 1);
    }
  }

  lemma {:induction false} PowPositive(d: nat)
    ensures Pow2(d) >= 1
  {
    if d > 0 {
      PowPositive(d - 1);
    }
  }

  lemma LeafDepth(k: nat, line: nat)
    requires line < Pow2(k)
    ensures Depth(Leaf(k, line)) == k
  {
    DepthRange(Leaf(k, line), k);
  }

  /** A touch changes only bits above the touched node. */
  lemma {:induction false} TouchAbove(tree: Tree, node: nat, m: nat)
    requires m < |tree| && Depth(m) >= Depth(node)
    ensures Touch(tree, node)[m] == tree[m]
    decreases node
  {
    if node != 0 && Parent(node) < |tree| {
      TouchAbove(tree[Parent(node) := node % 2 == 1], Parent(node), m);
    }
  }

  /** The count depends only on bits above the node. */
  lemma {:induction false} TowardAbove(tree: Tree, tree': Tree, node: nat)
    requires |tree| == |tree'| && forall m :: 0 <= m < |tree| && Depth(m) < Depth(node) ==> tree[m] == tree'[m]
    ensures Toward(tree, node) == Toward(tree', node)
  {
    if node != 0 && Parent(node) < |tree| {
      TowardAbove(tree, tree', Parent(node));
    }
  }

  /** Right after a touch, no bit points toward the touched node. */
  lemma {:induction false} TouchedIsAvoided(tree: Tree, node: nat)
    ensures Toward(Touch(tree, node), node) == 0
    decreases node
  {
    if node != 0 && Parent(node) < |tree| {
      var t := tree[Parent(node) := node % 2 == 1];
      TouchedIsAvoided(t, Parent(node));
      TouchAbove(t, Parent(node), Parent(node));
    }
  }

  /** Touching another node at the same depth turns at most one more bit toward this one: that of the lowest
      common ancestor. */
  lemma {:induction false} OtherTouchAddsOne(tree: Tree, a: nat, b: nat)
    requires Depth(a) == Depth(b)
    ensures Toward(Touch(tree, a), b) <= Toward(tree, b) + 1
    decreases a
  {
    if a != 0 && b != 0 && Parent(b) < |tree| {
      if Parent(a) < |tree| {
        var t := tree[Parent(a) := a % 2 == 1];
        if Parent(a) == Parent(b) {
          TouchedIsAvoided(t, Parent(a));
        } else {
          OtherTouchAddsOne(t, Parent(a), Parent(b));
          TowardAbove(tree, t, Parent(b));
          TouchAbove(t, Parent(a), Parent(b));
        }
      }
    }
  }

  lemma ChildPointedTo(tree: Tree, node: nat)
    requires node < |tree|
    ensures var child := 2 * node + if tree[node] then 2 else 1;
            Parent(child) == node && Depth(child) == Depth(node) + 1 && Toward(tree, child) == Toward(tree, node) + 1
  {
  }

  /** Following the bits reaches a node that every bit on its path points to. */
  lemma {:induction false} WalkFollows(tree: Tree, node: nat, n: nat, k: nat)
    requires Sized(tree, k) && Depth(node) + n == k && Toward(tree, node) == Depth(node)
    ensures Depth(Walk(tree, node, n)) == k && Toward(tree, Walk(tree, node, n)) == k
    decreases n
  {
    hide Parent, Depth, Toward, Pow2;
    if n > 0 {
      DepthRange(node, Depth(node));
      PowGrows(Depth(node), k);
      ChildPointedTo(tree, node);
      var child := 2 * node + if tree[node] then 2 else 1;
      WalkFollows(tree, child, n - 1, k);
    }
  }

  lemma {:induction false} PowGrows(d: nat, k: nat)
    requires d < k
    ensures 2 * Pow2(d) <= Pow2(k)
  {
    if d + 1 < k {
      PowGrows(d, k - 1);
    }
  }

  /** The line the policy would evict. */
  function PolicyVictim(tree: Tree, k: nat): nat
    requires Sized(tree, k)
  {
    var leaf := Walk(tree, 0, k);
    if leaf >= Pow2(k) - 1 then leaf - (Pow2(k) - 1) else 0
  }

  function TouchLine(tree: Tree, k: nat, line: nat): (t: Tree)
    ensures |t| == |tree|
  {
    Touch(tree, Leaf(k, line))
  }

  function TouchLines(tree: Tree, k: nat, lines: seq<nat>): (t: Tree)
    ensures |t| == |tree|
  {
    if |lines| == 0 then tree else TouchLine(TouchLines(tree, k, lines[..|lines| - 1]), k, lines[|lines| - 1])
  }

  lemma VictimIsLine(tree: Tree, k: nat)
    requires Sized(tree, k)
    ensures PolicyVictim(tree, k) < Pow2(k)
    ensures Toward(tree, Leaf(k, PolicyVictim(tree, k))) == k
  {
    WalkFollows(tree, 0, k, k);
    DepthRange(Walk(tree, 0, k), k);
  }

  lemma {:induction false} FewTouchesFewBits(tree: Tree, k: nat, line: nat, others: seq<nat>)
    requires line < Pow2(k) && forall i :: 0 <= i < |others| ==> others[i] < Pow2(k)
    ensures Toward(TouchLines(TouchLine(tree, k, line), k, others), Leaf(k, line)) <= |others|
  {
    if |others| == 0 {
      TouchedIsAvoided(tree, Leaf(k, line));
    } else {
      var before := others[..|others| - 1];
      FewTouchesFewBits(tree, k, line, before);
      LeafDepth(k, line);
      LeafDepth(k, others[|others| - 1]);
      OtherTouchAddsOne(TouchLines(TouchLine(tree, k, line), k, before), Leaf(k, others[|others| - 1]), Leaf(k, line));
    }
  }

  /** For any power-of-two number of lines, whatever the tree held: a touched line is not the policy's victim
      again before log2(lines) further touches. */
  lemma TouchedIsSafe(tree: Tree, k: nat, line: nat, others: seq<nat>)
    requires Sized(tree, k) && line < Pow2(k) && |others| < k && forall i :: 0 <= i < |others| ==> others[i] < Pow2(k)
    ensures PolicyVictim(TouchLines(TouchLine(tree, k, line), k, others), k) != line
  {
    FewTouchesFewBits(tree, k, line, others);
    VictimIsLine(TouchLines(TouchLine(tree, k, line), k, others), k);
  }

  /** The tree bits as the design keeps them. */
  class TreePlru {
    const levels: nat
    const tree: array<bool>

    ghost predicate Valid()
      reads tree
    {
      Sized(tree[..], levels)
    }

    constructor (levels: nat)
      ensures Valid() && this.levels == levels && fresh(tree)
      ensures forall i :: 0 <= i < tree.Length ==> !tree[i]
    {
      PowPositive(levels);
      this.levels := levels;
      tree := new bool[Pow2(levels) - 1](_ => false);
    }

    /** Down from the root, one level at a time. */
    method Victim() returns (line: nat)
      requires Valid()
      ensures line == PolicyVictim(tree[..], levels) && line < Pow2(levels)
    {
      var node: nat := 0;
      for level := 0 to levels
        invariant Depth(node) == level && Walk(tree[..], node, levels - level) == Walk(tree[..], 0, levels)
      {
        DepthRange(node, level);
        PowGrows(level, levels);
        var child := 2 * node + if tree[node] then 2 else 1;
        assert Parent(child) == node;
        node := child;
      }
      DepthRange(node, levels);
      VictimIsLine(tree[..], levels);
      line := node - (Pow2(levels) - 1);
    }

    /** Up from the leaf, one level at a time: point each parent away from the child we came from. */
    method TouchNow(line: nat)
      requires Valid() && line < Pow2(levels)
      modifies tree
      ensures Valid() && tree[..] == TouchLine(old(tree[..]), levels, line)
    {
      var node: nat := line + Pow2(levels) - 1;
      LeafDepth(levels, line);
      for level := 0 to levels
        invariant Depth(node) == levels - level && tree.Length == Pow2(levels) - 1
        invariant Touch(tree[..], node) == TouchLine(old(tree[..]), levels, line)
      {
        DepthRange(Parent(node), levels - level - 1);
        PowGrows(levels - level - 1, levels);
        ghost var before := tree[..];
        tree[Parent(node)] := node % 2 == 1;
        assert tree[..] == before[Parent(node) := node % 2 == 1];
        node := Parent(node);
      }
    }
  }

  // ---- true LRU ----

  /** `order` lists the lines, most recently used first, and each line's age is its place in it. */
  ghost predicate AgesList(age: seq<nat>, order: seq<nat>) {
    && |age| == |order|
    && (forall i :: 0 <= i < |order| ==> order[i] < |age| && age[order[i]] == i)
    && (forall l :: 0 <= l < |age| ==> age[l] < |order| && order[age[l]] == l)
  }

  /** Using a line moves it to the front. */
  function MoveToFront(order: seq<nat>, place: nat): seq<nat>
    requires place < |order|
  {
    [order[place]] + order[..place] + order[place + 1..]
  }

  function AgeAfter(age: seq<nat>, line: nat, l: nat): nat
    requires line < |age| && l < |age|
  {
    if l == line then 0 else if age[l] < age[line] then age[l] + 1 else age[l]
  }

  /** The age update keeps the ages a permutation, and is exactly "move to front" on the list. */
  lemma AgesFollowList(age: seq<nat>, age': seq<nat>, order: seq<nat>, line: nat)
    requires AgesList(age, order) && line < |age| == |age'|
    requires forall l :: 0 <= l < |age| ==> age'[l] == AgeAfter(age, line, l)
    ensures AgesList(age', MoveToFront(order, age[line]))
  {
    var order' := MoveToFront(order, age[line]);
    forall i | 0 <= i < |order'|
      ensures order'[i] < |age'| && age'[order'[i]] == i
    {
      if 0 < i <= age[line] {
        assert order'[i] == order[i - 1];
      } else if i > age[line] {
        assert order'[i] == order[i];
      }
    }
    forall l | 0 <= l < |age'|
      ensures age'[l] < |order'| && order'[age'[l]] == l
    {
      assert order[age[l]] == l;
    }
  }

  class TrueLru {
    const age: array<nat>
    ghost var order: seq<nat>

    ghost predicate Valid()
      reads this, age
    {
      age.Length > 0 && AgesList(age[..], order)
    }

    constructor (lines: nat)
      requires lines > 0
      ensures Valid() && age.Length == lines && fresh(age)
    {
      age := new nat[lines](i => i);
      order := seq(lines, i => i);
    }

    /** The policy's victim is the tail of the recency list. */
    method Victim() returns (line: nat)
      requires Valid()
      ensures line < age.Length && line == order[|order| - 1]
    {
      line := 0;
      for l := 0 to age.Length
        invariant line < age.Length
        invariant forall j :: 0 <= j < l && age[j] == age.Length - 1 ==> line == j
      {
        if age[l] == age.Length - 1 {
          assert order[age[..][l]] == l;
          line := l;
        }
      }
      assert age[..][order[|order| - 1]] == |order| - 1;
    }

    method TouchNow(line: nat)
      requires Valid() && line < age.Length
      modifies this`order, age
      ensures Valid() && order == MoveToFront(old(order), old(age[line]))
    {
      var pivot := age[line];
      ghost var was := age[..];
      for l := 0 to age.Length
        invariant order == old(order)
        invariant forall j :: l <= j < age.Length ==> age[j] == was[j]
        invariant forall j :: 0 <= j < l ==> age[j] == AgeAfter(was, line, j)
      {
        if l == line {
          age[l] := 0;
        } else if age[l] < pivot {
          age[l] := age[l] + 1;
        }
      }
      AgesFollowList(was, age[..], order, line);
      order := MoveToFront(order, pivot);
    }
  }
}
