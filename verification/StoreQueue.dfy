/** The load/store unit's store queue: a circular buffer of stores that have left the memory queue. */
module StoreQueue {
  import opened Prelude
  import opened Bytes
  import opened StoreBuffer
  import opened DataSide

  class StoreQueue {
    const entries: array<Queued>
    var head: nat
    var count: nat

    ghost predicate Valid()
      reads this, entries
    {
      entries.Length == SQ_ENTRIES && head < SQ_ENTRIES && count <= SQ_ENTRIES
    }

    /** The index i places after the head; the pointers wrap around. */
    function At(i: nat): nat
      reads `head
    {
      if head + i >= SQ_ENTRIES then head + i - SQ_ENTRIES else head + i
    }

    ghost function Rows(n: nat): (qs: seq<Queued>)
      requires Valid() && n <= SQ_ENTRIES
      reads this, entries
      ensures |qs| == n && forall i :: 0 <= i < n ==> qs[i] == entries[At(i)]
    {
      if n == 0 then [] else Rows(n - 1) + [entries[At(n - 1)]]
    }

    /** The queued stores, oldest first. */
    ghost function Contents(): seq<Queued>
      requires Valid()
      reads this, entries
    {
      Rows(count)
    }

    constructor (none: Queued)
      ensures Valid() && Contents() == [] && fresh(entries)
    {
      entries := new Queued[SQ_ENTRIES](_ => none);
      head, count := 0, 0;
    }

    /** The forwarding loop: from the oldest store to the youngest, a younger overlapping one overriding what
        an older one decided. The last one to overlap decides, so this is the youngest-first search. */
    method Forward(a: Addr, size: Size, unsigned: bool) returns (hit: bool, block: bool, value: Lanes)
      requires Valid()
      ensures hit == Search(AsStores(Contents()), a, ByteMask(size, a.byte)).Hit?
      ensures block == Search(AsStores(Contents()), a, ByteMask(size, a.byte)).Conflict?
      ensures hit ==> var j := YoungestOverlap(AsStores(Contents()), a, ByteMask(size, a.byte));
                      value == ForwardValue(Contents()[j].data, Contents()[j].addr.byte, size, unsigned, a.byte)
    {
      hide ByteMask, Touches, ShiftUp, ShiftDown, Spread, Covers, YoungestOverlap, AsStores, Decided;
      var lmask := ByteMask(size, a.byte);
      ghost var qs, ss, decided := Contents(), AsStores(Contents()), 0 - 1;
      hit, block := false, false;
      var word := ZERO;
      DecidedNone(ss, a, lmask);
      for i := 0 to SQ_ENTRIES
        invariant -1 <= decided < |ss| && Decided(ss, i, a, lmask, decided)
        invariant hit == (decided >= 0 && Covers(ss[decided].mask, lmask)) && block == (decided >= 0 && !Covers(ss[decided].mask, lmask))
        invariant hit ==> word == ShiftUp(qs[decided].data, qs[decided].addr.byte)
      {
        DecidedNext(ss, i, a, lmask, decided);
        if i < count {
          var e := entries[At(i)];
          assert qs[i] == e;
          var st := e.AsStore();
          if Touches(st, a, lmask) {
            decided := i;
            hit, block := Covers(st.mask, lmask), !Covers(st.mask, lmask);
            if hit {
              word := ShiftUp(e.data, e.addr.byte);
            }
          }
        }
      }
      DecidedLast(ss, SQ_ENTRIES, a, lmask, decided);
      value := FormatShifted(word, size, unsigned, a.byte);
      if hit {
        ShiftedFormat(qs[decided].data, qs[decided].addr.byte, size, unsigned, a.byte);
      }
    }

    /** How many entries a recovery keeps: up to the last one that is not younger than the branch. */
    method Keep(branch: nat) returns (keep: nat)
      requires Valid()
      ensures keep == |KeepStamps(Contents(), branch)|
    {
      keep := 0;
      ghost var qs := Contents();
      for i := 0 to SQ_ENTRIES
        invariant keep <= i && keep <= |qs|
        invariant keep > 0 ==> qs[keep - 1].stamp <= branch
        invariant forall k :: keep <= k < i && k < |qs| ==> qs[k].stamp > branch
      {
        if i < count && entries[At(i)].stamp <= branch {
          assert qs[i] == entries[At(i)];
          keep := i + 1;
        } else if i < count {
          assert qs[i] == entries[At(i)];
        }
      }
      KeptLength(qs, branch, keep);
    }

    /** One clock edge without a flush: commit pops the oldest store; the queue head may push one, or a
        recovery cuts the young end off. */
    method Clock(commit: bool, push: Option<Queued>, squash: Option<nat>)
      requires Valid() && (push.Some? ==> squash.None? && count < SQ_ENTRIES)
      requires commit ==> count > 0 && (squash.Some? ==> |KeepStamps(Contents(), squash.value)| > 0)
      modifies this, entries
      ensures Valid()
      ensures var kept := if squash.Some? then KeepStamps(old(Contents()), squash.value) else old(Contents());
              Contents() == (if commit then kept[1..] else kept) + (if push.Some? then [push.value] else [])
    {
      hide Rows, KeepStamps, At;
      if squash.Some? {
        var keep := Keep(squash.value);
        Truncate(keep);
      }
      if commit {
        Pop();
      }
      if push.Some? {
        Push(push.value);
      }
    }

    method Truncate(n: nat)
      requires Valid() && n <= count
      modifies `count
      ensures Valid() && Contents() == old(Contents())[..n] && count == n
    {
      count := n;
    }

    method Push(q: Queued)
      requires Valid() && count < SQ_ENTRIES
      modifies `count, entries
      ensures Valid() && Contents() == old(Contents()) + [q] && head == old(head)
    {
      ghost var was := Contents();
      entries[At(count)] := q;
      count := count + 1;
      assert Rows(count - 1) == was;
    }

    method Pop()
      requires Valid() && count > 0
      modifies `head, `count
      ensures Valid() && Contents() == old(Contents())[1..] && count == old(count) - 1
    {
      ghost var was := Contents();
      head, count := At(1), count - 1;
      assert Contents() == was[1..];
    }

    /** A flush empties the queue. */
    method Flush()
      requires Valid()
      modifies this
      ensures Valid() && Contents() == []
    {
      head, count := 0, 0;
    }
  }

  /** Of the first i stores, store d is the youngest that touches the access (none if d is -1). */
  ghost predicate Decided(ss: seq<Store>, i: nat, a: Addr, m: Mask, d: int) {
    && -1 <= d < |ss| && d < i && (d >= 0 ==> Touches(ss[d], a, m))
    && forall k :: d < k < i && k < |ss| ==> !Touches(ss[k], a, m)
  }

  lemma DecidedNone(ss: seq<Store>, a: Addr, m: Mask)
    ensures Decided(ss, 0, a, m, -1)
  {
  }

  lemma DecidedNext(ss: seq<Store>, i: nat, a: Addr, m: Mask, d: int)
    requires Decided(ss, i, a, m, d)
    ensures if i < |ss| && Touches(ss[i], a, m) then Decided(ss, i + 1, a, m, i) else Decided(ss, i + 1, a, m, d)
  {
    hide Touches;
  }

  lemma DecidedLast(ss: seq<Store>, i: nat, a: Addr, m: Mask, d: int)
    requires |ss| <= i && Decided(ss, i, a, m, d)
    ensures YoungestOverlap(ss, a, m) == d
  {
    hide Touches;
    YoungestOverlapUnique(ss, a, m, d);
  }

  /** The value select at the end of the forwarding loop. */
  function FormatShifted(word: Lanes, size: Size, unsigned: bool, off: Offset): Lanes {
    var s := ShiftDown(word, off);
    match size
    case ByteSize => [s[0], Extend(s[0], unsigned), Extend(s[0], unsigned), Extend(s[0], unsigned)]
    case HalfSize => [s[0], s[1], Extend(s[1], unsigned), Extend(s[1], unsigned)]
    case WordSize => word
  }

  lemma ShiftedFormat(data: Lanes, storeOff: Offset, size: Size, unsigned: bool, off: Offset)
    ensures FormatShifted(ShiftUp(data, storeOff), size, unsigned, off) == ForwardValue(data, storeOff, size, unsigned, off)
  {
  }

  lemma {:induction false} KeptLength(qs: seq<Queued>, branch: nat, keep: nat)
    requires keep <= |qs| && (keep > 0 ==> qs[keep - 1].stamp <= branch) && forall k :: keep <= k < |qs| ==> qs[k].stamp > branch
    ensures |KeepStamps(qs, branch)| == keep
  {
    if keep < |qs| {
      KeptLength(qs[..|qs| - 1], branch, keep);
    }
  }
}
