/** The reorder buffer: a circular buffer of sixteen entries whose indices are the rename tags. */
module ReorderBuffer {
  import opened Prelude
  import opened OooPackage

  /** A completion broadcast, as the buffer records it. */
  datatype Completion = Completion(valid: bool, tag: Tag, value: Word, exception: bool, cause: Word, tval: Word,
                                   mispredict: bool, taken: bool, nextPc: Word, fpFlags: nat)

  /** A whole entry, as allocation supplies it and commit reads it. S is the fields written only at
      allocation, which the buffer carries unchanged. */
  datatype Entry<S> = Entry(done: bool, value: Word, exception: bool, cause: Word, tval: Word, nextPc: Word,
                            mispredict: bool, taken: bool, fpFlags: nat, fixed: S)

  /** The fields broadcasts write, narrowed: four bits of cause, and one word for either tval or next PC. */
  datatype Dyn = Dyn(valid: bool, done: bool, value: Word, exception: bool, cause: nat, aux: Word,
                     mispredict: bool, taken: bool, fpFlags: nat)

  function DynOf<S>(e: Entry<S>): Dyn {
    Dyn(true, e.done, e.value, e.exception, e.cause % 16, if e.exception then e.tval else e.nextPc, e.mispredict, e.taken, e.fpFlags)
  }

  function JoinEntry<S>(d: Dyn, s: S): Entry<S> {
    Entry(d.done, d.value, d.exception, d.cause % 16, d.aux, d.aux, d.mispredict, d.taken, d.fpFlags, s)
  }

  function Complete(d: Dyn, c: Completion): Dyn {
    Dyn(d.valid, true, c.value, c.exception, c.cause % 16, if c.exception then c.tval else c.nextPc, c.mispredict, c.taken, c.fpFlags)
  }

  /** The narrow form loses nothing commit looks at: the cause and tval of a trap, the next PC of anything else. */
  lemma NarrowingIsExact<S>(e: Entry<S>)
    requires e.exception ==> e.cause < 16
    ensures var j := JoinEntry(DynOf(e), e.fixed);
            && j == e.(cause := j.cause, tval := j.tval, nextPc := j.nextPc)
            && (e.exception ==> j.cause == e.cause && j.tval == e.tval)
            && (!e.exception ==> j.nextPc == e.nextPc)
  {
  }

  // ---- the buffer as a list of entries in program order ----

  datatype Slot<S> = Slot(dyn: Dyn, fixed: S)

  datatype Inputs<S> = Inputs(flush: bool, squash: bool, squashTag: Tag, alloc0: bool, entry0: Entry<S>, alloc1: bool, entry1: Entry<S>,
                              cdb0: Completion, cdb1: Completion, cdb2: Completion, commits: nat)

  /** One entry after this cycle's broadcasts. */
  function Completed(d: Dyn, t: Tag, x: Inputs): Dyn {
    var d0 := if x.cdb0.valid && x.cdb0.tag == t then Complete(d, x.cdb0) else d;
    var d1 := if x.cdb1.valid && x.cdb1.tag == t then Complete(d0, x.cdb1) else d0;
    if x.cdb2.valid && x.cdb2.tag == t then Complete(d1, x.cdb2) else d1
  }

  function CompleteAll<S>(head: Tag, win: seq<Slot<S>>, x: Inputs<S>, n: nat): (r: seq<Slot<S>>)
    requires n <= |win|
    ensures |r| == n && forall i :: 0 <= i < n ==> r[i] == Slot(Completed(win[i].dyn, TagAt(head, i), x), win[i].fixed)
  {
    if n == 0 then [] else CompleteAll(head, win, x, n - 1) + [Slot(Completed(win[n - 1].dyn, TagAt(head, n - 1), x), win[n - 1].fixed)]
  }

  function Allocated<S>(x: Inputs<S>): seq<Slot<S>> {
    (if x.alloc0 then [Slot(DynOf(x.entry0), x.entry0.fixed)] else []) + (if x.alloc1 then [Slot(DynOf(x.entry1), x.entry1.fixed)] else [])
  }

  /** What the rest of the core promises: room for what it allocates, commits of what is there, and a squash
      by a live branch that is not itself committing, with nothing allocated beside it. */
  predicate Legal<S>(head: Tag, used: nat, x: Inputs<S>) {
    && x.commits <= 2 && x.commits <= used && (x.alloc1 ==> x.alloc0)
    && used + (if x.alloc0 then 1 else 0) + (if x.alloc1 then 1 else 0) <= ROB_SIZE
    && (x.squash ==> !x.alloc0 && !x.alloc1 && x.commits <= Age(x.squashTag, head) < used)
  }

  /** One clock edge, in program-order terms: broadcasts complete entries, commits leave at the old end,
      allocations join at the young end, a squash keeps the entries up to the branch. */
  function Next<S>(head: Tag, win: seq<Slot<S>>, x: Inputs<S>): seq<Slot<S>>
    requires Legal(head, |win|, x)
  {
    var completed := CompleteAll(head, win, x, |win|);
    if x.flush then []
    else if x.squash then completed[x.commits..Age(x.squashTag, head) + 1]
    else completed[x.commits..] + Allocated(x)
  }

  function NextHead<S>(head: Tag, x: Inputs<S>): Tag {
    if x.flush then 0 else TagAt(head, x.commits)
  }

  class ReorderBuffer<S(0)> {
    const entries: array<Dyn>
    const bankEven: array<S>
    const bankOdd: array<S>
    var head: Tag
    var tail: Tag
    var used: nat

    /** The entries marked valid are exactly those of the circular window [head, head + used). */
    ghost predicate Valid()
      reads this, entries, bankEven, bankOdd
    {
      && entries.Length == ROB_SIZE && bankEven.Length == bankOdd.Length == ROB_SIZE / 2 && bankEven != bankOdd
      && used <= ROB_SIZE && tail == TagAt(head, used)
      && forall t :: 0 <= t < ROB_SIZE ==> (entries[t].valid <==> Age(t, head) < used)
    }

    /** Entry t lives in bank t mod 2 at row t / 2. */
    function Fixed(t: Tag): S
      requires bankEven.Length == bankOdd.Length == ROB_SIZE / 2
      reads bankEven, bankOdd
    {
      if t % 2 == 0 then bankEven[t / 2] else bankOdd[t / 2]
    }

    ghost function AllFixed(n: nat): (f: seq<S>)
      requires n <= ROB_SIZE && bankEven.Length == bankOdd.Length == ROB_SIZE / 2
      reads bankEven, bankOdd
      ensures |f| == n && forall t :: 0 <= t < n ==> f[t] == Fixed(t)
    {
      if n == 0 then [] else AllFixed(n - 1) + [Fixed(n - 1)]
    }

    ghost function Rows(n: nat): (w: seq<Slot<S>>)
      requires entries.Length == ROB_SIZE && bankEven.Length == bankOdd.Length == ROB_SIZE / 2
      reads this, entries, bankEven, bankOdd
      ensures |w| == n && forall i :: 0 <= i < n ==> w[i] == Slot(entries[TagAt(head, i)], Fixed(TagAt(head, i)))
    {
      if n == 0 then [] else Rows(n - 1) + [Slot(entries[TagAt(head, n - 1)], Fixed(TagAt(head, n - 1)))]
    }

    /** The instructions in flight, oldest first. */
    ghost function Contents(): seq<Slot<S>>
      requires Valid()
      reads this, entries, bankEven, bankOdd
    {
      Rows(used)
    }

    constructor ()
      ensures Valid() && Contents() == [] && fresh(entries) && fresh(bankEven) && fresh(bankOdd)
    {
      entries := new Dyn[ROB_SIZE](_ => Dyn(false, false, 0, false, 0, 0, false, false, 0));
      bankEven := new S[ROB_SIZE / 2];
      bankOdd := new S[ROB_SIZE / 2];
      head, tail, used := 0, 0, 0;
    }

    /** The two oldest entries, as commit reads them. */
    method Heads() returns (h0: Entry<S>, valid0: bool, h1: Entry<S>, valid1: bool)
      requires Valid()
      ensures valid0 == (used >= 1) && (valid0 ==> h0 == JoinEntry(Contents()[0].dyn, Contents()[0].fixed))
      ensures valid1 == (used >= 2) && (valid1 ==> h1 == JoinEntry(Contents()[1].dyn, Contents()[1].fixed))
    {
      hide TagAt, Age, JoinEntry, Fixed;
      TagAtZero(head);
      var second := TagAt(head, 1);
      AgeOfTagAt(head, 0);
      AgeOfTagAt(head, 1);
      h0, valid0 := JoinEntry(entries[head], Fixed(head)), entries[head].valid;
      h1, valid1 := JoinEntry(entries[second], Fixed(second)), entries[second].valid;
    }

    /** Allocation writes tail and tail + 1, which have opposite parity: one write port a bank. */
    method WriteBanks(x: Inputs<S>)
      requires bankEven.Length == bankOdd.Length == ROB_SIZE / 2 && bankEven != bankOdd && (x.alloc1 ==> x.alloc0)
      modifies bankEven, bankOdd
      ensures forall t: Tag :: Fixed(t) ==
                if x.alloc0 && t == tail then x.entry0.fixed
                else if x.alloc1 && t == TagAt(tail, 1) then x.entry1.fixed
                else old(Fixed(t))
    {
      var tail1 := TagAt(tail, 1);
      if tail % 2 == 0 {
        if x.alloc0 {
          bankEven[tail / 2] := x.entry0.fixed;
        }
        if x.alloc1 {
          bankOdd[tail1 / 2] := x.entry1.fixed;
        }
      } else {
        if x.alloc0 {
          bankOdd[tail / 2] := x.entry0.fixed;
        }
        if x.alloc1 {
          bankEven[tail1 / 2] := x.entry1.fixed;
        }
      }
    }

    /** One entry's next state: complete, retire, allocate, squash, in that order. */
    method ClockEntry(d: Dyn, t: Tag, x: Inputs<S>) returns (d': Dyn)
      requires used <= ROB_SIZE && tail == TagAt(head, used) && Legal(head, used, x)
      requires d.valid <==> Age(t, head) < used
      ensures IsClocked(d, d', t, head, used, x)
    {
      hide TagAt, Age, Complete, DynOf;
      AgesNear(head, tail, used, t);
      CompletionKeepsValid(d, t, x);
      d' := d;
      if x.cdb0.valid && x.cdb0.tag == t && d'.valid {
        d' := Complete(d', x.cdb0);
      }
      if x.cdb1.valid && x.cdb1.tag == t && d'.valid {
        d' := Complete(d', x.cdb1);
      }
      if x.cdb2.valid && x.cdb2.tag == t && d'.valid {
        d' := Complete(d', x.cdb2);
      }
      assert d' == if d.valid then Completed(d, t, x) else d;
      if (x.commits >= 1 && t == head) || (x.commits == 2 && t == TagAt(head, 1)) {
        d' := d'.(valid := false);
      }
      if x.alloc0 && t == tail {
        d' := DynOf(x.entry0);
      }
      if x.alloc1 && t == TagAt(tail, 1) {
        d' := DynOf(x.entry1);
      }
      if x.squash && Younger(t, x.squashTag, head) {
        d' := d'.(valid := false);
      }
    }

    method ClockEntries(x: Inputs<S>)
      requires Valid() && Legal(head, used, x)
      modifies entries
      ensures forall t :: 0 <= t < ROB_SIZE ==> IsClocked(old(entries[t]), entries[t], t, head, used, x)
    {
      hide IsClocked, Legal, Age;
      for i := 0 to ROB_SIZE
        invariant forall t :: i <= t < ROB_SIZE ==> entries[t] == old(entries[t])
        invariant forall t :: 0 <= t < i ==> IsClocked(old(entries[t]), entries[t], t, head, used, x)
      {
        var e := ClockEntry(entries[i], i, x);
        entries[i] := e;
      }
    }

    method Flush()
      requires Valid()
      modifies this, entries
      ensures Valid() && Contents() == [] && head == 0
    {
      for i := 0 to ROB_SIZE
        invariant forall t :: 0 <= t < i ==> !entries[t].valid
      {
        entries[i] := Dyn(false, false, 0, false, 0, 0, false, false, 0);
      }
      head, tail, used := 0, 0, 0;
    }

    /** The pointers of an edge without a flush. */
    method MovePointers(x: Inputs<S>)
      requires used <= ROB_SIZE && tail == TagAt(head, used) && Legal(head, used, x)
      modifies `head, `tail, `used
      ensures head == TagAt(old(head), x.commits) && used == NextEnd(old(head), old(used), x) - x.commits
      ensures used <= ROB_SIZE && tail == TagAt(head, used)
    {
      hide TagAt, Age;
      PointersMove(head, tail, used, x);
      if x.squash {
        used := Age(x.squashTag, head) + 1 - x.commits;
        tail := TagAt(x.squashTag, 1);
      } else {
        var allocs := (if x.alloc0 then 1 else 0) + (if x.alloc1 then 1 else 0);
        used := used + allocs - x.commits;
        tail := TagAt(tail, allocs);
      }
      head := TagAt(head, x.commits);
    }

    method Clock(x: Inputs<S>)
      requires Valid() && Legal(head, used, x)
      modifies this, entries, bankEven, bankOdd
      ensures Valid() && Contents() == Next(old(head), old(Contents()), x) && head == NextHead(old(head), x)
    {
      hide Completed, DynOf, Next, Fixed, TagAt, Age, NextEnd, IsClocked, Legal;
      LegalAlloc(head, used, x);
      if x.flush {
        FlushIsNext(head, Contents(), x);
        WriteBanks(x);
        Flush();
      } else {
        ghost var h, n, was, e0, f0 := head, used, Contents(), entries[..], AllFixed(ROB_SIZE);
        ClockEntries(x);
        WriteBanks(x);
        MovePointers(x);
        WindowIsNext(h, n, was, x, e0, entries[..], f0, AllFixed(ROB_SIZE), Rows(used));
      }
    }
  }

  lemma LegalAlloc<S>(head: Tag, used: nat, x: Inputs<S>)
    requires Legal(head, used, x)
    ensures x.alloc1 ==> x.alloc0
    ensures !x.flush ==> NextHead(head, x) == TagAt(head, x.commits)
  {
  }

  lemma FlushIsNext<S>(head: Tag, win: seq<Slot<S>>, x: Inputs<S>)
    requires Legal(head, |win|, x) && x.flush
    ensures Next(head, win, x) == []
  {
  }

  /** The new tail is one past the youngest surviving entry. */
  lemma PointersMove<S>(head: Tag, tail: Tag, used: nat, x: Inputs<S>)
    requires used <= ROB_SIZE && tail == TagAt(head, used) && Legal(head, used, x)
    ensures x.commits <= NextEnd(head, used, x) <= ROB_SIZE && (!x.squash ==> used <= NextEnd(head, used, x))
    ensures (if x.squash then TagAt(x.squashTag, 1) else TagAt(tail, NextEnd(head, used, x) - used)) ==
            TagAt(TagAt(head, x.commits), NextEnd(head, used, x) - x.commits)
  {
    hide TagAt, Age;
    TagAtAge(x.squashTag, head);
    TagAtAfterRetire(head, Age(x.squashTag, head), 1);
    if !x.squash {
      TagAtAfterRetire(head, used, NextEnd(head, used, x) - used);
    }
    TagAtAfterRetire(head, x.commits, NextEnd(head, used, x) - x.commits);
  }

  /** The age just past the youngest surviving entry, counted from the old head. */
  function NextEnd<S>(head: Tag, used: nat, x: Inputs<S>): nat {
    if x.squash then Age(x.squashTag, head) + 1 else used + (if x.alloc0 then 1 else 0) + (if x.alloc1 then 1 else 0)
  }

  /** One entry before and after a clock edge without a flush. */
  ghost predicate IsClocked<S>(d: Dyn, d': Dyn, t: Tag, head: Tag, used: nat, x: Inputs<S>) {
    && (d'.valid <==> x.commits <= Age(t, head) < NextEnd(head, used, x))
    && (d'.valid && Age(t, head) < used ==> d' == Completed(d, t, x))
    && (d'.valid && Age(t, head) == used ==> d' == DynOf(x.entry0))
    && (d'.valid && Age(t, head) == used + 1 ==> d' == DynOf(x.entry1))
  }

  lemma CompletionKeepsValid<S>(d: Dyn, t: Tag, x: Inputs<S>)
    ensures Completed(d, t, x).valid == d.valid
    ensures Complete(d, x.cdb0).valid == d.valid && Complete(Complete(d, x.cdb0), x.cdb1).valid == d.valid && Complete(d, x.cdb1).valid == d.valid
    ensures forall e: Entry<S> :: DynOf(e).valid
  {
  }

  /** Ages around both ends of the window. */
  lemma AgesNear(head: Tag, tail: Tag, used: nat, t: Tag)
    requires used <= ROB_SIZE && tail == TagAt(head, used)
    ensures t == head <==> Age(t, head) == 0
    ensures t == TagAt(head, 1) <==> Age(t, head) == 1
    ensures used < ROB_SIZE ==> (t == tail <==> Age(t, head) == used)
    ensures used + 1 < ROB_SIZE ==> (t == TagAt(tail, 1) <==> Age(t, head) == used + 1)
  {
  }

  lemma AgeAfterCommits(t: Tag, head: Tag, c: nat)
    requires c <= ROB_SIZE
    ensures Age(t, TagAt(head, c)) == if c <= Age(t, head) then Age(t, head) - c else Age(t, head) + ROB_SIZE - c
  {
    hide TagAt, Age;
    var a := Age(t, head);
    var a' := if c <= a then a else a + ROB_SIZE;
    TagAtAge(t, head);
    TagAtWraps(head, a);
    TagAtAfterRetire(head, c, a' - c);
    AgeOfTagAt(TagAt(head, c), a' - c);
  }

  /** Clocking every entry by itself clocks the window as a whole. e0 and e1 are the entries before and after,
      f0 and f1 the banks, `was` and `now` the windows. */
  lemma WindowIsNext<S>(h: Tag, n: nat, was: seq<Slot<S>>, x: Inputs<S>, e0: seq<Dyn>, e1: seq<Dyn>, f0: seq<S>, f1: seq<S>, now: seq<Slot<S>>)
    requires n <= ROB_SIZE && Legal(h, n, x) && !x.flush && |was| == n
    requires |e0| == |e1| == |f0| == |f1| == ROB_SIZE && |now| == NextEnd(h, n, x) - x.commits
    requires forall i :: 0 <= i < n ==> was[i] == Slot(e0[TagAt(h, i)], f0[TagAt(h, i)])
    requires forall j :: 0 <= j < |now| ==>
               now[j] == Slot(e1[TagAt(TagAt(h, x.commits), j)], f1[TagAt(TagAt(h, x.commits), j)])
    requires forall t :: 0 <= t < ROB_SIZE ==> IsClocked(e0[t], e1[t], t, h, n, x)
    requires forall t :: 0 <= t < ROB_SIZE ==>
               f1[t] == if x.alloc0 && t == TagAt(h, n) then x.entry0.fixed
                        else if x.alloc1 && t == TagAt(TagAt(h, n), 1) then x.entry1.fixed
                        else f0[t]
    ensures now == Next(h, was, x)
    ensures forall t :: 0 <= t < ROB_SIZE ==> (e1[t].valid <==> Age(t, TagAt(h, x.commits)) < |now|)
  {
    hide TagAt, Age, Completed, DynOf;
    forall t: Tag
      ensures e1[t].valid <==> Age(t, TagAt(h, x.commits)) < |now|
    {
      AgeAfterCommits(t, h, x.commits);
    }
    forall j | 0 <= j < |now|
      ensures now[j] == Next(h, was, x)[j]
    {
      SlotIsNext(h, n, was, x, e0[TagAt(h, j + x.commits)], e1[TagAt(h, j + x.commits)], f0[TagAt(h, j + x.commits)], f1[TagAt(h, j + x.commits)], j);
      TagAtAfterRetire(h, x.commits, j);
    }
  }

  lemma SlotIsNext<S>(h: Tag, n: nat, was: seq<Slot<S>>, x: Inputs<S>, d: Dyn, d': Dyn, f: S, f': S, j: nat)
    requires n <= ROB_SIZE && Legal(h, n, x) && !x.flush && |was| == n && j + x.commits < NextEnd(h, n, x)
    requires j + x.commits < n ==> was[j + x.commits] == Slot(d, f)
    requires var t := TagAt(h, j + x.commits);
             && IsClocked(d, d', t, h, n, x)
             && f' == if x.alloc0 && t == TagAt(h, n) then x.entry0.fixed
                      else if x.alloc1 && t == TagAt(TagAt(h, n), 1) then x.entry1.fixed
                      else f
    ensures j < |Next(h, was, x)| && Slot(d', f') == Next(h, was, x)[j]
  {
    hide TagAt, Age, Completed, DynOf;
    var t := TagAt(h, j + x.commits);
    AgeOfTagAt(h, j + x.commits);
    AgesNear(h, TagAt(h, n), n, t);
  }
}
