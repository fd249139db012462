/** A reservation station: a few slots of renamed instructions waiting for operands and for their unit. */
module ReservationStation {
  import opened Prelude
  import opened OooPackage
  import opened Wakeup
  import opened Ranking

  /** A waiting instruction. P is everything about it the station carries unchanged. */
  datatype Entry<P> = Entry(tag: Tag, op1: Operand, op2: Operand, payload: P)
  {
    predicate Ready() {
      op1.ready && op2.ready
    }
  }

  datatype Slot<P> = Slot(valid: bool, entry: Entry<P>)

  datatype Inputs<P> = Inputs(flush: bool, squash: bool, squashTag: Tag, insert0: Option<Entry<P>>, insert1: Option<Entry<P>>,
                              buses: Buses, wakes: TagWakes, head: Tag, take0: bool, take1: bool)

  function Woken<P>(e: Entry<P>, x: Inputs<P>, specWake: bool): Entry<P> {
    e.(op1 := AllWakes(e.op1, x.buses, specWake, x.wakes), op2 := AllWakes(e.op2, x.buses, specWake, x.wakes))
  }

  // ---- selection ----

  predicate Candidate<P>(s: Slot<P>, inOrder: bool) {
    s.valid && (inOrder || s.entry.Ready())
  }

  /** The ages selection compares. */
  function CandidateAges<P>(slots: seq<Slot<P>>, inOrder: bool, head: Tag): (a: Ages)
    ensures |a| == |slots|
    ensures forall i :: 0 <= i < |slots| ==>
              a[i] == if Candidate(slots[i], inOrder) then Some(Age(slots[i].entry.tag, head)) else None
  {
    if |slots| == 0 then []
    else
      var s := slots[|slots| - 1];
      CandidateAges(slots[..|slots| - 1], inOrder, head) + [if Candidate(s, inOrder) then Some(Age(s.entry.tag, head)) else None]
  }

  // ---- the station's contents as a set ----

  ghost function Waiting<P(!new)>(slots: seq<Slot<P>>): set<Entry<P>> {
    set i | 0 <= i < |slots| && slots[i].valid :: slots[i].entry
  }

  ghost predicate TagsDiffer<P>(slots: seq<Slot<P>>) {
    forall i, j :: 0 <= i < j < |slots| && slots[i].valid && slots[j].valid ==> slots[i].entry.tag != slots[j].entry.tag
  }

  function FreeCount<P>(slots: seq<Slot<P>>): nat {
    if slots == [] then 0 else FreeCount(slots[..|slots| - 1]) + if slots[|slots| - 1].valid then 0 else 1
  }

  /** What stays of an entry: it issued, it was younger than a mispredicted branch, or it waits on. */
  predicate Leaves(t: Tag, x: Inputs, issued: set<Tag>) {
    t in issued || (x.squash && Younger(t, x.squashTag, x.head))
  }

  ghost function Inserted<P(!new)>(x: Inputs<P>, specWake: bool): set<Entry<P>> {
    (if x.insert0.Some? then {Woken(x.insert0.value, x, specWake)} else {}) +
    (if x.insert1.Some? then {Woken(x.insert1.value, x, specWake)} else {})
  }

  /** One clock edge on the set of waiting instructions. */
  ghost function Next<P(!new)>(es: set<Entry<P>>, x: Inputs<P>, specWake: bool, issued: set<Tag>): set<Entry<P>> {
    if x.flush then {}
    else (set e | e in es && !Leaves(e.tag, x, issued) :: Woken(e, x, specWake)) + Inserted(x, specWake)
  }

  lemma WaitingSnoc<P(!new)>(slots: seq<Slot<P>>, s: Slot<P>)
    ensures Waiting(slots + [s]) == Waiting(slots) + if s.valid then {s.entry} else {}
  {
    var all := slots + [s];
    forall e | e in Waiting(all)
      ensures e in Waiting(slots) + if s.valid then {s.entry} else {}
    {
      var i :| 0 <= i < |all| && all[i].valid && all[i].entry == e;
      assert i < |slots| ==> slots[i] == all[i];
    }
    forall e | e in Waiting(slots)
      ensures e in Waiting(all)
    {
      var i :| 0 <= i < |slots| && slots[i].valid && slots[i].entry == e;
      assert all[i] == slots[i];
    }
    assert all[|slots|] == s;
  }

  /** The entries that stay, woken. */
  ghost function Staying<P(!new)>(es: set<Entry<P>>, x: Inputs<P>, specWake: bool, issued: set<Tag>): set<Entry<P>> {
    set e | e in es && !Leaves(e.tag, x, issued) :: Woken(e, x, specWake)
  }

  lemma StayingAdd<P(!new)>(es: set<Entry<P>>, e: Entry<P>, x: Inputs<P>, specWake: bool, issued: set<Tag>)
    ensures Staying(es + {e}, x, specWake, issued) ==
            Staying(es, x, specWake, issued) + if Leaves(e.tag, x, issued) then {} else {Woken(e, x, specWake)}
  {
    hide Leaves, Woken;
    forall w | w in Staying(es + {e}, x, specWake, issued)
      ensures w in Staying(es, x, specWake, issued) + if Leaves(e.tag, x, issued) then {} else {Woken(e, x, specWake)}
    {
      var f :| f in es + {e} && !Leaves(f.tag, x, issued) && w == Woken(f, x, specWake);
    }
    forall w | w in Staying(es, x, specWake, issued)
      ensures w in Staying(es + {e}, x, specWake, issued)
    {
      var f :| f in es && !Leaves(f.tag, x, issued) && w == Woken(f, x, specWake);
    }
    if !Leaves(e.tag, x, issued) {
      assert e in es + {e};
    }
  }

  ghost predicate HasRoom<P>(slots: seq<Slot<P>>, x: Inputs<P>) {
    (if x.insert0.Some? then 1 else 0) + (if x.insert1.Some? then 1 else 0) <= FreeCount(slots)
  }

  /** Renaming never gives a tag that is still waiting here. */
  ghost predicate FreshTags<P>(slots: seq<Slot<P>>, x: Inputs<P>) {
    && (forall i :: 0 <= i < |slots| && slots[i].valid ==>
          && (x.insert0.Some? ==> slots[i].entry.tag != x.insert0.value.tag)
          && (x.insert1.Some? ==> slots[i].entry.tag != x.insert1.value.tag))
    && (x.insert0.Some? && x.insert1.Some? ==> x.insert0.value.tag != x.insert1.value.tag)
  }

  /** The same, seen on the set of waiting instructions. */
  ghost predicate FreshFor<P(!new)>(es: set<Entry<P>>, x: Inputs<P>) {
    && (forall e :: e in es ==>
          && (x.insert0.Some? ==> e.tag != x.insert0.value.tag)
          && (x.insert1.Some? ==> e.tag != x.insert1.value.tag))
    && (x.insert0.Some? && x.insert1.Some? ==> x.insert0.value.tag != x.insert1.value.tag)
  }

  lemma FreshSlots<P(!new)>(slots: seq<Slot<P>>, x: Inputs<P>)
    requires FreshFor(Waiting(slots), x)
    ensures FreshTags(slots, x)
  {
    forall i | 0 <= i < |slots| && slots[i].valid
      ensures slots[i].entry in Waiting(slots)
    {
    }
  }

  /** e is waiting and nothing that waits is older. */
  ghost predicate IsOldest<P(!new)>(es: set<Entry<P>>, e: Entry<P>, head: Tag) {
    e in es && forall f :: f in es ==> Age(e.tag, head) <= Age(f.tag, head)
  }

  /** f is the oldest ready entry, and e the oldest ready one of the others. */
  ghost predicate IsNextOldest<P(!new)>(es: set<Entry<P>>, f: Entry<P>, e: Entry<P>, head: Tag) {
    && f in es && f.Ready() && e in es && e.Ready() && f != e && Age(f.tag, head) <= Age(e.tag, head)
    && forall g :: g in es && g.Ready() && g != f ==> Age(e.tag, head) <= Age(g.tag, head)
  }

  class ReservationStation<P(0, !new)> {
    const inOrder: bool
    const specWake: bool
    const slots: array<Slot<P>>

    ghost predicate Valid()
      reads slots
    {
      TagsDiffer(slots[..])
    }

    ghost function Contents(): set<Entry<P>>
      reads slots
    {
      Waiting(slots[..])
    }

    constructor (entries: nat, inOrder: bool, specWake: bool, none: Entry<P>)
      ensures Valid() && Contents() == {} && fresh(slots) && slots.Length == entries
      ensures this.inOrder == inOrder && this.specWake == specWake
    {
      this.inOrder, this.specWake := inOrder, specWake;
      slots := new Slot<P>[entries](_ => Slot(false, none));
    }

    /** The two offers: the oldest candidate if it is ready, and (out of order only) the next oldest one. */
    method Select(head: Tag) returns (first: Option<nat>, second: Option<nat>)
      ensures var ages := CandidateAges(slots[..], inOrder, head);
              && (first.Some? ==> HasRank(ages, first.value, 0) && slots[first.value].entry.Ready())
              && (first.None? ==> forall i: nat :: HasRank(ages, i, 0) ==> !slots[..][i].entry.Ready())
              && (second.Some? ==> !inOrder && HasRank(ages, second.value, 1))
              && (second.None? && !inOrder ==> forall i: nat :: !HasRank(ages, i, 1))
    {
      hide AheadOf;
      first, second := None, None;
      var ages := CandidateAges(slots[..], inOrder, head);
      for i := 0 to slots.Length
        invariant first.Some? ==> HasRank(ages, first.value, 0) && slots[first.value].entry.Ready()
        invariant first.None? ==> forall j :: 0 <= j < i && HasRank(ages, j, 0) ==> !slots[..][j].entry.Ready()
        invariant second.Some? ==> !inOrder && HasRank(ages, second.value, 1)
        invariant second.None? && !inOrder ==> forall j :: 0 <= j < i ==> !HasRank(ages, j, 1)
      {
        var rank := CountAhead(ages, i);
        if ages[i].Some? && rank == 0 && slots[i].entry.Ready() {
          first := Some(i);
        }
        if !inOrder && ages[i].Some? && rank == 1 {
          second := Some(i);
        }
      }
    }

    /** Every slot's next state: wake, issue, squash, or take an inserted entry. */
    method ClockSlots(x: Inputs<P>, take0: Option<nat>, take1: Option<nat>, ghost issued: set<Tag>)
      requires Valid() && HasRoom(slots[..], x) && FreshTags(slots[..], x)
      requires forall i :: 0 <= i < slots.Length && slots[i].valid ==> (slots[i].entry.tag in issued <==> take0 == Some(i) || take1 == Some(i))
      modifies slots
      ensures Valid() && Contents() == Staying(old(Contents()), x, specWake, issued) + Inserted(x, specWake)
    {
      hide Leaves, Woken, Age, Waiting, Staying, FreeCount, HasRoom, FreshTags, TagsDiffer, Placed, Steps, Inserted;
      ghost var was := slots[..];
      var placed0, placed1 := x.insert0.None?, x.insert1.None?;
      FreeNone<P>();
      PlacedNone<P>(x, specWake, issued);
      RoomMeans(was, x);
      assert slots[..0] == [] && was[..0] == [];
      for i := 0 to slots.Length
        invariant slots[i..] == was[i..]
        invariant (x.insert0.None? ==> placed0) && (x.insert1.None? ==> placed1) && (x.insert1.Some? && placed1 ==> placed0)
        invariant !placed0 ==> FreeCount(was[..i]) == 0
        invariant !placed1 ==> FreeCount(was[..i]) <= if x.insert0.Some? then 1 else 0
        invariant Placed(was[..i], slots[..i], x, specWake, issued, placed0, placed1)
      {
        var s := slots[i];
        assert s == was[i];
        ghost var p0, p1 := placed0, placed1;
        if s.valid {
          var gone := take0 == Some(i) || take1 == Some(i) || (x.squash && Younger(s.entry.tag, x.squashTag, x.head));
          s := Slot(!gone, Woken(s.entry, x, specWake));
        } else if !placed0 {
          s, placed0 := Slot(true, Woken(x.insert0.value, x, specWake)), true;
        } else if !placed1 {
          s, placed1 := Slot(true, Woken(x.insert1.value, x, specWake)), true;
        }
        StepsOf(was[i], x, specWake, issued, p0, p1, s, placed0, placed1);
        PrefixTags(was, x, i + 1);
        FreeSnoc(was[..i], was[i]);
        assert was[..i + 1] == was[..i] + [was[i]];
        PlacedStep(was[..i], slots[..i], was[i], s, x, specWake, issued, p0, p1, placed0, placed1);
        slots[i] := s;
        assert slots[..i + 1] == slots[..i] + [s];
      }
      assert was[..slots.Length] == was && slots[..slots.Length] == slots[..];
      PlacedMeans(was, slots[..], x, specWake, issued);
    }

    /** One clock edge. Port 0 issues the oldest ready entry, port 1 the next oldest one (their units read the
        operands through Resolve), and the set of waiting instructions moves as Next says. */
    method Clock(x: Inputs<P>) returns (issued0: Option<Entry<P>>, issued1: Option<Entry<P>>)
      requires Valid() && HasRoom(slots[..], x) && FreshTags(slots[..], x)
      modifies slots
      ensures Valid()
      ensures issued0.Some? ==> x.take0 && issued0.value in old(Contents()) && issued0.value.Ready()
      ensures issued0.Some? ==> forall e :: e in old(Contents()) && (inOrder || e.Ready()) ==> Age(issued0.value.tag, x.head) <= Age(e.tag, x.head)
      ensures issued0.None? && x.take0 && !inOrder ==> forall e :: e in old(Contents()) ==> !e.Ready()
      ensures issued1.Some? ==> x.take1 && !inOrder && issued1.value in old(Contents()) && issued1.value.Ready()
      ensures issued0.Some? && issued1.Some? ==> issued1.value != issued0.value
      ensures issued0.Some? && issued1.Some? ==>
                forall e :: e in old(Contents()) && e != issued0.value && e.Ready() ==> Age(issued1.value.tag, x.head) <= Age(e.tag, x.head)
      ensures issued0.None? && x.take0 && inOrder ==> forall e :: IsOldest(old(Contents()), e, x.head) ==> !e.Ready()
      ensures issued1.Some? ==> exists f :: IsNextOldest(old(Contents()), f, issued1.value, x.head) && (issued0.Some? ==> f == issued0.value)
      ensures issued1.None? && x.take1 && !inOrder ==> forall e, f :: e in old(Contents()) && f in old(Contents()) && e.Ready() && f.Ready() ==> e == f
      ensures Contents() == Next(old(Contents()), x, specWake, Issued(issued0, issued1))
    {
      hide Leaves, Woken, CandidateAges, AheadOf, Age, FreeCount, IsOldest, IsNextOldest;
      var first, second := Select(x.head);
      ghost var was := slots[..];
      issued0 := if first.Some? && x.take0 then Some(slots[first.value].entry) else None;
      issued1 := if second.Some? && x.take1 then Some(slots[second.value].entry) else None;
      OffersAreOldest(was, inOrder, x, first, second);
      OffersMissNothing(was, inOrder, x, first, second);
      if x.flush {
        for i := 0 to slots.Length
          invariant forall j :: 0 <= j < i ==> !slots[j].valid
        {
          slots[i] := slots[i].(valid := false);
        }
      } else {
        ClockSlots(x, if x.take0 then first else None, if x.take1 then second else None, Issued(issued0, issued1));
      }
    }
  }

  ghost function Issued<P>(a: Option<Entry<P>>, b: Option<Entry<P>>): set<Tag> {
    (if a.Some? then {a.value.tag} else {}) + (if b.Some? then {b.value.tag} else {})
  }

  lemma LeavesMeans(t: Tag, x: Inputs, issued: set<Tag>)
    ensures Leaves(t, x, issued) <==> t in issued || (x.squash && Younger(t, x.squashTag, x.head))
  {
  }

  lemma FreeNone<P>()
    ensures FreeCount<P>([]) == 0
  {
  }

  lemma FreeSnoc<P>(slots: seq<Slot<P>>, s: Slot<P>)
    ensures FreeCount(slots + [s]) == FreeCount(slots) + if s.valid then 0 else 1
  {
    assert (slots + [s])[..|slots|] == slots;
  }

  lemma WaitingNone<P(!new)>(x: Inputs<P>, specWake: bool, issued: set<Tag>)
    ensures Waiting<P>([]) == {} && Staying<P>({}, x, specWake, issued) == {}
  {
  }

  /** What has been inserted once these slots have been placed. */
  ghost function InsertedSoFar<P(!new)>(x: Inputs<P>, specWake: bool, placed0: bool, placed1: bool): set<Entry<P>> {
    (if placed0 && x.insert0.Some? then {Woken(x.insert0.value, x, specWake)} else {}) +
    (if placed1 && x.insert1.Some? then {Woken(x.insert1.value, x, specWake)} else {})
  }

  /** Where the entry in a slot came from: the slot before the edge, or an insertion. */
  ghost predicate From<P>(w: Slot<P>, t: Tag, x: Inputs<P>, placed0: bool, placed1: bool) {
    if w.valid then t == w.entry.tag
    else (placed0 && x.insert0.Some? && t == x.insert0.value.tag) || (placed1 && x.insert1.Some? && t == x.insert1.value.tag)
  }

  /** Part of the way through the slots: the first ones hold what stays of them, and what was inserted. */
  ghost predicate Placed<P(!new)>(was: seq<Slot<P>>, now: seq<Slot<P>>, x: Inputs<P>, specWake: bool, issued: set<Tag>, placed0: bool, placed1: bool) {
    && |was| == |now| && TagsDiffer(now)
    && Waiting(now) == Staying(Waiting(was), x, specWake, issued) + InsertedSoFar(x, specWake, placed0, placed1)
    && forall i :: 0 <= i < |now| && now[i].valid ==> From(was[i], now[i].entry.tag, x, placed0, placed1)
  }

  /** What one slot becomes, and which insertions are placed after it. */
  ghost predicate Steps<P>(w: Slot<P>, s: Slot<P>, x: Inputs<P>, specWake: bool, issued: set<Tag>, p0: bool, p1: bool, q0: bool, q1: bool) {
    if w.valid then s == Slot(!Leaves(w.entry.tag, x, issued), Woken(w.entry, x, specWake)) && q0 == p0 && q1 == p1
    else if !p0 then x.insert0.Some? && s == Slot(true, Woken(x.insert0.value, x, specWake)) && q0 && q1 == p1
    else if !p1 then x.insert1.Some? && s == Slot(true, Woken(x.insert1.value, x, specWake)) && q0 == p0 && q1
    else s == w && q0 == p0 && q1 == p1
  }

  lemma WokenTag<P>(e: Entry<P>, x: Inputs<P>, specWake: bool)
    ensures Woken(e, x, specWake).tag == e.tag
  {
  }

  lemma StepSet<P(!new)>(was: seq<Slot<P>>, now: seq<Slot<P>>, w: Slot<P>, s: Slot<P>, x: Inputs<P>, specWake: bool, issued: set<Tag>,
                         p0: bool, p1: bool, q0: bool, q1: bool)
    requires Waiting(now) == Staying(Waiting(was), x, specWake, issued) + InsertedSoFar(x, specWake, p0, p1)
    requires Steps(w, s, x, specWake, issued, p0, p1, q0, q1)
    ensures Waiting(now + [s]) == Staying(Waiting(was + [w]), x, specWake, issued) + InsertedSoFar(x, specWake, q0, q1)
  {
    hide Waiting, Staying, Leaves, Woken;
    WaitingSnoc(was, w);
    WaitingSnoc(now, s);
    assert Waiting(was) + {} == Waiting(was) && Waiting(now) + {} == Waiting(now);
    if w.valid {
      StayingAdd(Waiting(was), w.entry, x, specWake, issued);
    }
  }

  lemma StepTags<P(!new)>(was: seq<Slot<P>>, now: seq<Slot<P>>, w: Slot<P>, s: Slot<P>, x: Inputs<P>, specWake: bool, issued: set<Tag>,
                          p0: bool, p1: bool, q0: bool, q1: bool)
    requires |was| == |now| && TagsDiffer(now) && TagsDiffer(was + [w]) && FreshTags(was + [w], x)
    requires forall i :: 0 <= i < |now| && now[i].valid ==> From(was[i], now[i].entry.tag, x, p0, p1)
    requires Steps(w, s, x, specWake, issued, p0, p1, q0, q1) && (x.insert1.Some? && p1 ==> p0)
    ensures TagsDiffer(now + [s])
    ensures forall i :: 0 <= i < |now + [s]| && (now + [s])[i].valid ==> From((was + [w])[i], (now + [s])[i].entry.tag, x, q0, q1)
  {
    hide Leaves, Woken;
    WokenTag(w.entry, x, specWake);
    if x.insert0.Some? {
      WokenTag(x.insert0.value, x, specWake);
    }
    if x.insert1.Some? {
      WokenTag(x.insert1.value, x, specWake);
    }
    var n := |now|;
    forall i | 0 <= i < n && now[i].valid && s.valid
      ensures now[i].entry.tag != s.entry.tag
    {
      assert (was + [w])[i] == was[i] && (was + [w])[n] == w;
    }
  }

  lemma PlacedStep<P(!new)>(was: seq<Slot<P>>, now: seq<Slot<P>>, w: Slot<P>, s: Slot<P>, x: Inputs<P>, specWake: bool, issued: set<Tag>,
                            p0: bool, p1: bool, q0: bool, q1: bool)
    requires Placed(was, now, x, specWake, issued, p0, p1)
    requires TagsDiffer(was + [w]) && FreshTags(was + [w], x) && (x.insert1.Some? && p1 ==> p0)
    requires Steps(w, s, x, specWake, issued, p0, p1, q0, q1)
    ensures Placed(was + [w], now + [s], x, specWake, issued, q0, q1)
  {
    hide Waiting, Staying, Leaves, Woken, From, TagsDiffer, FreshTags, Steps, InsertedSoFar;
    StepSet(was, now, w, s, x, specWake, issued, p0, p1, q0, q1);
    StepTags(was, now, w, s, x, specWake, issued, p0, p1, q0, q1);
  }

  lemma PrefixTags<P>(was: seq<Slot<P>>, x: Inputs<P>, n: nat)
    requires n <= |was| && TagsDiffer(was) && FreshTags(was, x)
    ensures TagsDiffer(was[..n]) && FreshTags(was[..n], x)
  {
  }

  lemma PlacedNone<P(!new)>(x: Inputs<P>, specWake: bool, issued: set<Tag>)
    ensures Placed<P>([], [], x, specWake, issued, x.insert0.None?, x.insert1.None?)
  {
    WaitingNone<P>(x, specWake, issued);
  }

  lemma PlacedMeans<P(!new)>(was: seq<Slot<P>>, now: seq<Slot<P>>, x: Inputs<P>, specWake: bool, issued: set<Tag>)
    requires Placed(was, now, x, specWake, issued, true, true)
    ensures TagsDiffer(now) && Waiting(now) == Staying(Waiting(was), x, specWake, issued) + Inserted(x, specWake)
  {
    hide TagsDiffer, Waiting, Staying, Woken;
  }

  lemma StepsOf<P>(w: Slot<P>, x: Inputs<P>, specWake: bool, issued: set<Tag>, p0: bool, p1: bool, s: Slot<P>, q0: bool, q1: bool)
    requires (!p0 ==> x.insert0.Some?) && (!p1 ==> x.insert1.Some?)
    requires var gone := w.valid && (w.entry.tag in issued || (x.squash && Younger(w.entry.tag, x.squashTag, x.head)));
             && s == (if w.valid then Slot(!gone, Woken(w.entry, x, specWake))
                      else if !p0 then Slot(true, Woken(x.insert0.value, x, specWake))
                      else if !p1 then Slot(true, Woken(x.insert1.value, x, specWake))
                      else w)
             && q0 == (p0 || !w.valid) && q1 == (p1 || (!w.valid && p0))
    ensures Steps(w, s, x, specWake, issued, p0, p1, q0, q1)
  {
    hide Woken, Younger;
  }

  lemma RoomMeans<P>(slots: seq<Slot<P>>, x: Inputs<P>)
    requires HasRoom(slots, x)
    ensures x.insert0.Some? ==> FreeCount(slots) >= 1
    ensures x.insert1.Some? ==> FreeCount(slots) >= if x.insert0.Some? then 2 else 1
  {
    hide FreeCount;
  }

  /** The offers, seen on the set of entries. */
  lemma OffersAreOldest<P(!new)>(slots: seq<Slot<P>>, inOrder: bool, x: Inputs<P>, first: Option<nat>, second: Option<nat>)
    requires TagsDiffer(slots)
    requires var ages := CandidateAges(slots, inOrder, x.head);
             && (first.Some? ==> HasRank(ages, first.value, 0) && slots[first.value].entry.Ready())
             && (first.None? ==> forall i: nat :: HasRank(ages, i, 0) ==> !slots[i].entry.Ready())
             && (second.Some? ==> !inOrder && HasRank(ages, second.value, 1))
    ensures first.Some? ==> first.value < |slots| && slots[first.value].valid && slots[first.value].entry in Waiting(slots)
    ensures first.Some? ==> forall e :: e in Waiting(slots) && (inOrder || e.Ready()) ==> Age(slots[first.value].entry.tag, x.head) <= Age(e.tag, x.head)
    ensures first.None? && !inOrder ==> forall e :: e in Waiting(slots) ==> !e.Ready()
    ensures second.Some? ==> second.value < |slots| && slots[second.value].valid && slots[second.value].entry in Waiting(slots) && slots[second.value].entry.Ready()
    ensures first.Some? && second.Some? ==> first != second && slots[first.value].entry != slots[second.value].entry
    ensures first.Some? && second.Some? ==>
              forall e :: e in Waiting(slots) && e != slots[first.value].entry && e.Ready() ==> Age(slots[second.value].entry.tag, x.head) <= Age(e.tag, x.head)
    ensures forall i :: 0 <= i < |slots| && slots[i].valid ==>
              (first.Some? && slots[i].entry.tag == slots[first.value].entry.tag <==> first == Some(i)) &&
              (second.Some? && slots[i].entry.tag == slots[second.value].entry.tag <==> second == Some(i))
  {
    hide AheadOf, Age;
    var ages := CandidateAges(slots, inOrder, x.head);
    forall i, k: nat | 0 <= i < |slots| && slots[i].valid && Candidate(slots[i], inOrder) && HasRank(ages, k, 0)
      ensures ages[i].Some? && ages[k].value <= ages[i].value
    {
      if i != k {
        OlderThanAll(ages, k, i);
      }
    }
    if first.None? && !inOrder {
      forall i | 0 <= i < |slots| && slots[i].valid
        ensures !slots[i].entry.Ready()
      {
        if slots[i].entry.Ready() {
          var f := SomeoneFirst(ages, i);
        }
      }
    }
    if first.Some? && second.Some? {
      forall i | 0 <= i < |slots| && i != first.value && ages[i].Some?
        ensures ages[second.value].value <= ages[i].value
      {
        if i != second.value {
          OlderThanRest(ages, first.value, second.value, i);
        }
      }
    }
  }

  /** No offer is missed: the in-order port is silent only if the oldest entry is not ready, the second port only if
      at most one entry is, and what the second port offers is the next oldest even if the first one is not taken. */
  lemma OffersMissNothing<P(!new)>(slots: seq<Slot<P>>, inOrder: bool, x: Inputs<P>, first: Option<nat>, second: Option<nat>)
    requires TagsDiffer(slots)
    requires var ages := CandidateAges(slots, inOrder, x.head);
             && (first.Some? ==> HasRank(ages, first.value, 0) && slots[first.value].entry.Ready())
             && (first.None? ==> forall i: nat :: HasRank(ages, i, 0) ==> !slots[i].entry.Ready())
             && (second.Some? ==> !inOrder && HasRank(ages, second.value, 1))
             && (second.None? && !inOrder ==> forall i: nat :: !HasRank(ages, i, 1))
    ensures first.None? && inOrder ==> forall e :: IsOldest(Waiting(slots), e, x.head) ==> !e.Ready()
    ensures second.Some? ==> first.Some? && first.value < |slots| && second.value < |slots|
    ensures second.Some? ==> IsNextOldest(Waiting(slots), slots[first.value].entry, slots[second.value].entry, x.head)
    ensures second.None? && !inOrder ==> forall e, f :: e in Waiting(slots) && f in Waiting(slots) && e.Ready() && f.Ready() ==> e == f
  {
    hide AheadOf, Age, IsOldest, IsNextOldest;
    var ages := CandidateAges(slots, inOrder, x.head);
    if first.None? && inOrder {
      forall e | IsOldest(Waiting(slots), e, x.head)
        ensures !e.Ready()
      {
        OldestIsFirst(slots, e, x.head);
      }
    }
    if second.Some? {
      var k := RankBelow(ages, second.value, 1, 0);
      assert slots[k].entry.Ready();
      OffersAreOldest(slots, inOrder, x, first, second);
      SecondIsNext(slots, x.head, first.value, second.value);
    } else if !inOrder {
      forall i, j | 0 <= i < |slots| && 0 <= j < |slots| && slots[i].valid && slots[j].valid && slots[i].entry.Ready() && slots[j].entry.Ready()
        ensures i == j
      {
        assert ages[i].Some? && ages[j].Some?;
        OneCandidate(ages, i, j);
      }
    }
  }

  lemma OldestIsFirst<P(!new)>(slots: seq<Slot<P>>, e: Entry<P>, head: Tag)
    requires TagsDiffer(slots) && IsOldest(Waiting(slots), e, head)
    ensures exists i: nat :: HasRank(CandidateAges(slots, true, head), i, 0) && i < |slots| && slots[i].entry == e
  {
    hide AheadOf, Age;
    var ages := CandidateAges(slots, true, head);
    var i :| 0 <= i < |slots| && slots[i].valid && slots[i].entry == e;
    var k := SomeoneFirst(ages, i);
    assert slots[k].entry in Waiting(slots);
    if k != i {
      OlderThanAll(ages, k, i);
      TagAtAge(slots[k].entry.tag, head);
      TagAtAge(e.tag, head);
    }
  }

  lemma SecondIsNext<P(!new)>(slots: seq<Slot<P>>, head: Tag, first: nat, second: nat)
    requires TagsDiffer(slots) && first < |slots| && second < |slots|
    requires HasRank(CandidateAges(slots, false, head), first, 0) && HasRank(CandidateAges(slots, false, head), second, 1)
    ensures IsNextOldest(Waiting(slots), slots[first].entry, slots[second].entry, head)
  {
    hide AheadOf, Age;
    var ages := CandidateAges(slots, false, head);
    assert first != second;
    OlderThanAll(ages, first, second);
    forall g | g in Waiting(slots) && g.Ready() && g != slots[first].entry
      ensures Age(slots[second].entry.tag, head) <= Age(g.tag, head)
    {
      var i :| 0 <= i < |slots| && slots[i].valid && slots[i].entry == g;
      if i != second {
        OlderThanRest(ages, first, second, i);
      }
    }
  }

  /** Where no candidate is second, there is at most one. */
  lemma OneCandidate(ages: Ages, i: nat, j: nat)
    requires i < |ages| && j < |ages| && ages[i].Some? && ages[j].Some? && forall k: nat :: !HasRank(ages, k, 1)
    ensures i == j
  {
    hide AheadOf;
    var m, n := |AheadOf(ages, i, |ages|)|, |AheadOf(ages, j, |ages|)|;
    assert HasRank(ages, i, m) && HasRank(ages, j, n);
    if m > 0 {
      var k := RankBelow(ages, i, m, 1);
    } else if n > 0 {
      var k := RankBelow(ages, j, n, 1);
    } else {
      RankUnique(ages, i, j, 0);
    }
  }

  lemma OlderThanAll(ages: Ages, k: nat, i: nat)
    requires HasRank(ages, k, 0) && i < |ages| && ages[i].Some? && i != k
    ensures ages[k].value <= ages[i].value
  {
    hide Ahead, AheadOf;
    var n := |AheadOf(ages, i, |ages|)|;
    if n == 0 {
      RankUnique(ages, i, k, 0);
    } else {
      LowerRankOlder(ages, k, 0, i, n);
    }
  }

  lemma OlderThanRest(ages: Ages, first: nat, second: nat, i: nat)
    requires HasRank(ages, first, 0) && HasRank(ages, second, 1) && i < |ages| && ages[i].Some? && i != first && i != second
    ensures ages[second].value <= ages[i].value
  {
    hide Ahead, AheadOf;
    var n := |AheadOf(ages, i, |ages|)|;
    if n == 0 {
      RankUnique(ages, i, first, 0);
    } else if n == 1 {
      RankUnique(ages, i, second, 1);
    } else {
      LowerRankOlder(ages, second, 1, i, n);
    }
  }
}
