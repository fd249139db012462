/** Committed stores on their way to memory: a circular FIFO with a youngest-first forwarding search. */
module StoreBuffer {
  import opened Prelude
  import opened Bytes

  // ---- what a list of stores means ----

  /** A memory word after a list of stores, oldest first. */
  function WordAfter(w: Lanes, ss: seq<Store>, a: Addr): Lanes {
    if |ss| == 0 then w
    else
      var before, s := WordAfter(w, ss[..|ss| - 1], a), ss[|ss| - 1];
      if s.addr.SameWord(a) then Merge(before, s.data, s.mask) else before
  }

  /** The youngest store to one byte lane of the word at a, or -1. */
  function YoungestByte(ss: seq<Store>, a: Addr, lane: nat): (j: int)
    requires lane < 4
    ensures -1 <= j < |ss|
    ensures j >= 0 ==> ss[j].addr.SameWord(a) && ss[j].mask[lane]
    ensures forall k :: j < k < |ss| ==> !(ss[k].addr.SameWord(a) && ss[k].mask[lane])
  {
    if |ss| == 0 then -1
    else if ss[|ss| - 1].addr.SameWord(a) && ss[|ss| - 1].mask[lane] then |ss| - 1
    else YoungestByte(ss[..|ss| - 1], a, lane)
  }

  /** Each byte of memory is the one the youngest store to it wrote, or the initial one. */
  lemma {:induction false} ByteOfYoungest(w: Lanes, ss: seq<Store>, a: Addr, lane: nat)
    requires lane < 4
    ensures var j := YoungestByte(ss, a, lane);
            WordAfter(w, ss, a)[lane] == if j >= 0 then Spread(ss[j].data, ss[j].mask)[lane] else w[lane]
  {
    hide Merge, Spread, Addr.SameWord;
    if |ss| > 0 {
      var s := ss[|ss| - 1];
      ByteOfYoungest(w, ss[..|ss| - 1], a, lane);
      MergedLane(WordAfter(w, ss[..|ss| - 1], a), s.data, s.mask, lane);
    }
  }

  lemma WordAfterSnoc(w: Lanes, ss: seq<Store>, s: Store, a: Addr)
    ensures WordAfter(w, ss + [s], a) ==
            if s.addr.SameWord(a) then Merge(WordAfter(w, ss, a), s.data, s.mask) else WordAfter(w, ss, a)
  {
    assert (ss + [s])[..|ss|] == ss;
  }

  lemma {:induction false} WordAfterAppend(w: Lanes, ss: seq<Store>, ts: seq<Store>, a: Addr)
    ensures WordAfter(w, ss + ts, a) == WordAfter(WordAfter(w, ss, a), ts, a)
  {
    hide Merge, Addr.SameWord;
    if |ts| == 0 {
      assert ss + ts == ss;
    } else {
      WordAfterAppend(w, ss, ts[..|ts| - 1], a);
      assert (ss + ts)[..|ss + ts| - 1] == ss + ts[..|ts| - 1];
    }
  }

  predicate Touches(s: Store, a: Addr, m: Mask) {
    s.addr.SameWord(a) && Overlaps(m, s.mask)
  }

  /** Stores that do not touch the lanes of m leave them alone. */
  lemma {:induction false} UntouchedLanes(w: Lanes, ss: seq<Store>, a: Addr, m: Mask)
    requires forall k :: 0 <= k < |ss| ==> !Touches(ss[k], a, m)
    ensures AgreeOn(m, w, WordAfter(w, ss, a))
  {
    hide Spread;
    if |ss| > 0 {
      UntouchedLanes(w, ss[..|ss| - 1], a, m);
    }
  }

  // ---- forwarding ----

  datatype Found = Miss | Conflict | Hit(word: Lanes)

  /** The youngest store that overlaps the access, or -1. */
  function YoungestOverlap(ss: seq<Store>, a: Addr, m: Mask): (j: int)
    ensures -1 <= j < |ss|
    ensures j >= 0 ==> Touches(ss[j], a, m)
    ensures forall k :: j < k < |ss| ==> !Touches(ss[k], a, m)
  {
    if |ss| == 0 then -1 else if Touches(ss[|ss| - 1], a, m) then |ss| - 1 else YoungestOverlap(ss[..|ss| - 1], a, m)
  }

  function Search(ss: seq<Store>, a: Addr, m: Mask): Found {
    var j := YoungestOverlap(ss, a, m);
    if j < 0 then Miss else if Covers(ss[j].mask, m) then Hit(Spread(ss[j].data, ss[j].mask)) else Conflict
  }

  lemma YoungestOverlapUnique(ss: seq<Store>, a: Addr, m: Mask, j: int)
    requires -1 <= j < |ss| && (j >= 0 ==> Touches(ss[j], a, m)) && forall k :: j < k < |ss| ==> !Touches(ss[k], a, m)
    ensures YoungestOverlap(ss, a, m) == j
  {
    hide Touches;
  }

  ghost predicate IsYoungest(ss: seq<Store>, a: Addr, m: Mask, j: nat) {
    j < |ss| && Touches(ss[j], a, m) && forall k :: j < k < |ss| ==> !Touches(ss[k], a, m)
  }

  /** The youngest store that overlaps the access covers all of it. */
  ghost predicate YoungestCovers(ss: seq<Store>, a: Addr, m: Mask) {
    exists j: nat :: IsYoungest(ss, a, m, j) && Covers(ss[j].mask, m)
  }

  ghost predicate NoneTouches(ss: seq<Store>, a: Addr, m: Mask) {
    forall k :: 0 <= k < |ss| ==> !Touches(ss[k], a, m)
  }

  /** The search hits exactly if the youngest store that overlaps the access covers all of it, misses exactly if none
      overlaps it, and otherwise holds the access up. */
  lemma SearchDecides(ss: seq<Store>, a: Addr, m: Mask)
    ensures Search(ss, a, m).Hit? <==> YoungestCovers(ss, a, m)
    ensures Search(ss, a, m).Conflict? <==> exists j: nat :: IsYoungest(ss, a, m, j) && !Covers(ss[j].mask, m)
    ensures Search(ss, a, m).Miss? <==> NoneTouches(ss, a, m)
  {
    hide Touches, Covers, Spread;
    var j := YoungestOverlap(ss, a, m);
    if j >= 0 {
      assert IsYoungest(ss, a, m, j);
    }
  }

  /** A hit forwards exactly the bytes memory will hold once every buffered store has been written, whatever
      memory holds now; a miss means memory's own bytes already are those. */
  lemma SearchIsRight(w: Lanes, ss: seq<Store>, a: Addr, m: Mask)
    ensures var r := Search(ss, a, m);
            && (r.Hit? ==> AgreeOn(m, r.word, WordAfter(w, ss, a)))
            && (r.Miss? ==> AgreeOn(m, w, WordAfter(w, ss, a)))
  {
    hide Spread, Touches, YoungestOverlap;
    var j := YoungestOverlap(ss, a, m);
    if j < 0 {
      UntouchedLanes(w, ss, a, m);
    } else {
      var upTo := ss[..j + 1];
      WordAfterAppend(w, upTo, ss[j + 1..], a);
      assert upTo + ss[j + 1..] == ss;
      var younger := ss[j + 1..];
      forall k | 0 <= k < |younger|
        ensures !Touches(younger[k], a, m)
      {
        assert younger[k] == ss[j + 1 + k];
      }
      UntouchedLanes(WordAfter(w, upTo, a), younger, a, m);
      assert upTo[..j] + [ss[j]] == upTo;
      WordAfterSnoc(w, upTo[..j], ss[j], a);
      if Covers(ss[j].mask, m) {
        CoveringMerge(WordAfter(w, upTo[..j], a), ss[j], a, m);
      }
    }
  }

  lemma CoveringMerge(w: Lanes, s: Store, a: Addr, m: Mask)
    requires Touches(s, a, m) && Covers(s.mask, m)
    ensures s.addr.SameWord(a) && AgreeOn(m, Spread(s.data, s.mask), Merge(w, s.data, s.mask))
  {
    hide Spread;
  }

  // ---- the circular buffer ----

  class StoreBuffer {
    const depth: nat
    const addrs: array<Addr>
    const datas: array<Lanes>
    const masks: array<Mask>
    var head: nat
    var tail: nat
    var count: nat

    ghost predicate Sized() {
      depth > 0 && addrs.Length == datas.Length == masks.Length == depth
    }

    ghost predicate Valid()
      reads this, addrs, datas, masks
    {
      Sized() && head < depth && count <= depth && tail == Wrap(head + count)
    }

    /** An index past the end starts over; it is never past the end twice. */
    function Wrap(i: nat): nat {
      if i >= depth then i - depth else i
    }

    ghost function Rows(h: nat, n: nat): (ss: seq<Store>)
      requires Sized() && h < depth && n <= depth
      reads this, addrs, datas, masks
      ensures |ss| == n
      ensures forall i :: 0 <= i < n ==> ss[i] == Store(addrs[Wrap(h + i)], datas[Wrap(h + i)], masks[Wrap(h + i)])
    {
      if n == 0 then [] else Rows(h, n - 1) + [Store(addrs[Wrap(h + n - 1)], datas[Wrap(h + n - 1)], masks[Wrap(h + n - 1)])]
    }

    /** The buffered stores, oldest first. */
    ghost function Contents(): seq<Store>
      requires Valid()
      reads this, addrs, datas, masks
    {
      Rows(head, count)
    }

    constructor (depth: nat)
      requires depth > 0
      ensures Valid() && Contents() == [] && this.depth == depth && fresh(addrs) && fresh(datas) && fresh(masks)
    {
      this.depth := depth;
      addrs := new Addr[depth](_ => Addr(0, 0, 0));
      datas := new Lanes[depth](_ => ZERO);
      masks := new Mask[depth](_ => [false, false, false, false]);
      head, tail, count := 0, 0, 0;
    }

    /** The store offered for draining: the oldest one. */
    method Oldest() returns (valid: bool, s: Store)
      requires Valid()
      ensures valid == (Contents() != []) && (valid ==> s == Contents()[0])
    {
      valid := count != 0;
      s := Store(addrs[head], datas[head], masks[head]);
    }

    method Enqueue(s: Store)
      requires Valid() && count < depth
      modifies `tail, `count, addrs, datas, masks
      ensures Valid() && Contents() == old(Contents()) + [s] && count == old(count) + 1
    {
      ghost var was := Contents();
      addrs[tail], datas[tail], masks[tail] := s.addr, s.data, s.mask;
      tail := if tail == depth - 1 then 0 else tail + 1;
      count := count + 1;
      assert Rows(head, count - 1) == was;
    }

    method Dequeue()
      requires Valid() && count > 0
      modifies `head, `count
      ensures Valid() && Contents() == old(Contents())[1..] && count == old(count) - 1
    {
      ghost var was := Contents();
      head := if head == depth - 1 then 0 else head + 1;
      count := count - 1;
      assert Contents() == was[1..];
    }

    method Clock(enqueue: Option<Store>, drain: bool)
      requires Valid()
      modifies this, addrs, datas, masks
      ensures Valid()
      ensures Contents() == (if drain && old(count) > 0 then old(Contents())[1..] else old(Contents())) +
                            (if enqueue.Some? && old(count) < depth then [enqueue.value] else [])
    {
      hide Rows, Wrap;
      var enqueues, dequeues := enqueue.Some? && count < depth, drain && count > 0;
      if dequeues {
        Dequeue();
      }
      if enqueues {
        Enqueue(enqueue.value);
      }
    }

    /** The forwarding search: youngest to oldest, stopping at the first overlap. */
    method Query(a: Addr, m: Mask) returns (r: Found)
      requires Valid()
      ensures r == Search(Contents(), a, m)
    {
      hide Overlaps, Covers, Addr.SameWord, Spread;
      r := Miss;
      ghost var ss := Contents();
      for scan := 0 to depth
        invariant r.Miss? ==> forall k :: count - scan <= k < count && 0 <= k ==> !Touches(ss[k], a, m)
        invariant !r.Miss? ==> r == Search(ss, a, m)
      {
        if scan < count && r.Miss? {
          var age := count - 1 - scan;
          var i := Wrap(head + age);
          assert ss[age] == Store(addrs[i], datas[i], masks[i]);
          if addrs[i].SameWord(a) && Overlaps(m, masks[i]) {
            YoungestOverlapUnique(ss, a, m, age);
            if Covers(masks[i], m) {
              var word := AlignStoreWord(datas[i], masks[i]);
              r := Hit(word);
            } else {
              r := Conflict;
            }
          }
        }
      }
      if r.Miss? {
        YoungestOverlapUnique(ss, a, m, -1);
      }
    }
  }
}
