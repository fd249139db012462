/** The core's own registers around dispatch and issue: the checkpoint allocator and the issue-to-execute
    registers, clocked as the design clocks them, and how the step machine drives them. */
module CoreRegisters {
  import opened Prelude
  import opened OooPackage
  import opened Isa
  import opened Dataflow
  import opened Core
  import opened CoreInvariant
  import opened CoreTable
  import CoreBuffer
  import RAT = RenameTable

  /** What reaches the registers in one cycle: the resolving branch's checkpoint, a recovery, a checkpoint
      to allocate and its owner, and the selected tags. */
  datatype Ports = Ports(flush: bool, head: Tag, resolved: Option<nat>, recover: Option<Tag>, save: Option<nat>, saveTag: Tag,
                         alu0: Option<Tag>, alu1: Option<Tag>, br: Option<Tag>)

  // ---- checkpoints ----

  /** Checkpoint k after an edge: a new owner, or released by its branch or by an older branch's recovery. */
  function UsedAfter(used: bool, owner: Tag, k: nat, p: Ports): bool {
    if p.flush then false
    else if p.save == Some(k) then true
    else used && p.resolved != Some(k) && !(p.recover.Some? && Younger(owner, p.recover.value, p.head))
  }

  function OwnerAfter(owner: Tag, k: nat, p: Ports): Tag {
    if !p.flush && p.save == Some(k) then p.saveTag else owner
  }

  class Checkpoints {
    const used: array<bool>
    const owner: array<Tag>

    ghost predicate Valid() {
      used.Length == owner.Length == RAT.CKPTS
    }

    constructor ()
      ensures Valid() && fresh(used) && fresh(owner) && forall k :: 0 <= k < RAT.CKPTS ==> !used[k]
    {
      used := new bool[RAT.CKPTS](_ => false);
      owner := new Tag[RAT.CKPTS](_ => 0);
    }

    /** From the highest checkpoint to the lowest, so the lowest free one wins. */
    method Free() returns (available: bool, id: nat)
      requires Valid()
      ensures available <==> FreeCkpt(used[..]) < |used[..]|
      ensures available ==> id == FreeCkpt(used[..])
    {
      available, id := false, 0;
      for k := RAT.CKPTS downto 0
        invariant available ==> k <= id < RAT.CKPTS && !used[id] && forall i :: k <= i < id ==> used[i]
        invariant !available ==> forall i :: k <= i < RAT.CKPTS ==> used[i]
      {
        if !used[k] {
          available, id := true, k;
        }
      }
    }

    method Clock(p: Ports)
      requires Valid() && (p.save.Some? ==> p.save.value < RAT.CKPTS)
      modifies used, owner
      ensures forall k :: 0 <= k < RAT.CKPTS ==> used[k] == UsedAfter(old(used[k]), old(owner[k]), k, p)
      ensures forall k :: 0 <= k < RAT.CKPTS ==> owner[k] == OwnerAfter(old(owner[k]), k, p)
    {
      for k := 0 to RAT.CKPTS
        invariant forall i :: k <= i < RAT.CKPTS ==> used[i] == old(used[i])
        invariant forall i :: 0 <= i < k ==> used[i] == UsedAfter(old(used[i]), old(owner[i]), i, p.(save := None))
        invariant owner[..] == old(owner[..])
      {
        if p.flush || p.resolved == Some(k) {
          used[k] := false;
        } else if p.recover.Some? && used[k] && Younger(owner[k], p.recover.value, p.head) {
          used[k] := false;
        }
      }
      if !p.flush && p.save.Some? {
        used[p.save.value] := true;
        owner[p.save.value] := p.saveTag;
      }
    }
  }

  // ---- issue registers ----

  /** An issue register after an edge: what its station selected, unless a flush or a recovery removes it. */
  function IssuedAfter(selected: Option<Tag>, p: Ports): Option<Tag> {
    if p.flush || (p.recover.Some? && selected.Some? && Younger(selected.value, p.recover.value, p.head)) then None else selected
  }

  // ---- the step machine's drive ----

  function RegisterPorts<M>(s: State<M>, x: Inputs): Ports
    requires s.Shape()
  {
    var b := if s.br.Some? then s.w.IndexOf(s.br.value) else ROB_SIZE;
    var t := TablePorts(s, x);
    Ports(Flushes(s, x), s.w.head,
          if b < |s.w.ops| then Some(s.w.ops[b].ckpt) else None,
          if Recovers(s) && !Flushes(s, x) then s.br else None,
          t.save, s.w.TagOf(|s.w.ops| + if InsertsBranch(s, x, 1) then 1 else 0),
          TagOfSelected(s, x.issue.alu0), TagOfSelected(s, x.issue.alu1), TagOfSelected(s, x.issue.br))
  }

  /** Renaming a bundle allocates one checkpoint, if the bundle holds a branch. */
  lemma DispatchAllocates<M>(isa: Isa<M>, s: State<M>, x: Inputs)
    requires Decodes(isa) && s.Shape() && Bundled(s) && Packets(isa, s.queue)
    requires !Flushes(s, x) && !Recovers(s) && CanDispatchMany(isa, s, x.dispatch)
    ensures var s', p := DispatchMany(isa, s, x.dispatch), RegisterPorts(s, x);
            && (p.save.Some? ==> p.save.value < RAT.CKPTS && !s.used[p.save.value])
            && s'.used == (if p.save.Some? then s.used[p.save.value := true] else s.used)
            && s'.owner == (if p.save.Some? then s.owner[p.save.value := p.saveTag] else s.owner)
            && s'.br == s.br
  {
    hide RAT.SetMap, RAT.Save, RAT.SetCurrent, Lookup, Execute, RetireCount, Mispredicted;
    if x.dispatch == 2 {
      OneBranchAtOnce(isa, s);
    }
  }

  /** Where these registers are all that matters, two states are the same. */
  predicate SameRegisters<M>(s: State<M>, s': State<M>) {
    s'.used == s.used && s'.owner == s.owner && s'.alu0 == s.alu0 && s'.alu1 == s.alu1 && s'.br == s.br
  }

  lemma RetireKeepsRegisters<M>(isa: Isa<M>, s: State<M>, n: nat)
    requires s.Shape() && n <= 2 && forall i :: 0 <= i < n ==> Completed(s, i)
    ensures SameRegisters(s, RetireMany(isa, s, n))
  {
    hide RAT.ClearAll;
  }

  lemma FetchKeepsRegisters<M>(isa: Isa<M>, s: State<M>, gs: seq<Guess>)
    requires s.Shape()
    ensures SameRegisters(s, Fetch(isa, s, gs))
  {
    hide MakePacket, LetsFollow, Shifted;
  }

  /** The back half touches the allocator only to release the checkpoint of a branch that resolves. */
  lemma BackHalfReleases<M>(isa: Isa<M>, s: State<M>, x: Inputs, n: nat)
    requires s.Shape() && n <= 2 && forall i :: 0 <= i < n ==> Completed(s, i)
    ensures var s' := BackHalf(isa, s, x, n);
            && s'.owner == s.owner
            && s'.used == (if s.br.Some? && s.w.IndexOf(s.br.value) < |s.w.ops| then s.used[s.w.ops[s.w.IndexOf(s.br.value)].ckpt := false] else s.used)
            && s'.alu0 == TagOfSelected(s, x.issue.alu0) && s'.alu1 == TagOfSelected(s, x.issue.alu1) && s'.br == TagOfSelected(s, x.issue.br)
  {
    hide AdvanceAll, Enqueue, RetireMany;
    RetireKeepsRegisters(isa, Advance(isa, s, x), n);
  }

  lemma RecoverReleases<M>(isa: Isa<M>, s: State<M>)
    requires s.Shape() && Recovers(s)
    ensures var s', b := Recover(isa, s), s.w.IndexOf(s.br.value);
            && s'.owner == s.owner && s'.br == None && s'.w.head == s.w.head
            && s'.used == ReleaseYounger(s.used, s.owner, s.w.ops[b].ckpt, s.br.value, s.w.head)
  {
    hide RAT.Restore, KeepOlder, ReleaseYounger, Mispredicted;
  }

  /** The checkpoint of a branch in the branch unit is its own, so the one being allocated is another one. */
  lemma ResolvingIsUsed<M>(isa: Isa<M>, s: State<M>)
    requires Inv(isa, s) && s.br.Some?
    ensures s.Shape() && Bundled(s) && Packets(isa, s.queue)
    ensures s.w.IndexOf(s.br.value) < |s.w.ops| && s.used[s.w.ops[s.w.IndexOf(s.br.value)].ckpt]
  {
    hide Outcomes, Operands, Stores, Histories, RAT.Agrees, Chain, QueueChain;
    assert Unresolved(s.w, s.w.IndexOf(s.br.value));
    assert HoldsCheckpoint(s, s.w.IndexOf(s.br.value));
  }

  lemma InvMeans<M>(isa: Isa<M>, s: State<M>)
    requires Inv(isa, s)
    ensures s.Shape() && Bundled(s) && Packets(isa, s.queue)
  {
    hide Outcomes, Operands, Stores, Histories, Renaming, Units, Chain, QueueChain;
  }

  lemma RecoveryAllocatesNothing<M>(s: State<M>, x: Inputs)
    requires s.Shape() && Recovers(s) && !Flushes(s, x)
    ensures RegisterPorts(s, x).save == None
    ensures var b := s.w.IndexOf(s.br.value);
            b < |s.w.ops| && RegisterPorts(s, x).resolved == Some(s.w.ops[b].ckpt) && RegisterPorts(s, x).recover == s.br
  {
    hide Mispredicted;
  }

  /** Nothing selected while a branch recovers is younger than the branch. */
  lemma SelectedSurvives<M>(isa: Isa<M>, s: State<M>, x: Inputs, i: Option<nat>)
    requires Inv(isa, s) && Allowed(isa, s, x) && !Flushes(s, x) && Recovers(s)
    requires i.Some? ==> x.issue.Selects(i.value)
    ensures IssuedAfter(TagOfSelected(s, i), RegisterPorts(s, x)) == TagOfSelected(s, i)
  {
    hide Inv, TablePorts, Mispredicted;
    CoreBuffer.FrontFacts(isa, s, x);
    if i.Some? {
      AgeOfTagAt(s.w.head, i.value);
    }
  }

  /** One edge of the whole machine is one edge of these registers, under the ports the design wires. */
  lemma RegistersFollowPorts<M>(isa: Isa<M>, s: State<M>, x: Inputs)
    requires Decodes(isa) && Inv(isa, s) && Allowed(isa, s, x)
    ensures s.Shape() && Next(isa, s, x).Shape()
    ensures var s', p := Next(isa, s, x), RegisterPorts(s, x);
            && (forall k :: 0 <= k < RAT.CKPTS ==>
                  s'.used[k] == UsedAfter(s.used[k], s.owner[k], k, p) && s'.owner[k] == OwnerAfter(s.owner[k], k, p))
            && s'.alu0 == IssuedAfter(p.alu0, p) && s'.alu1 == IssuedAfter(p.alu1, p) && s'.br == IssuedAfter(p.br, p)
  {
    hide Inv, BackHalf, Recover, DispatchMany, Fetch, CanAdvance, CanDispatchMany, RetireCount, Mispredicted, RAT.FlushTable, TablePorts;
    InvMeans(isa, s);
    if !Flushes(s, x) {
      var n := RetireCount(s, x.storeBufferFull);
      BackHalfReleases(isa, FrontHalf(isa, s, x), x, n);
      FetchKeepsRegisters(isa, BackHalf(isa, FrontHalf(isa, s, x), x, n), x.fetch);
      CoreBuffer.FrontFacts(isa, s, x);
      if Recovers(s) {
        RecoverReleases(isa, s);
        RecoveryAllocatesNothing(s, x);
        SelectedSurvives(isa, s, x, x.issue.alu0);
        SelectedSurvives(isa, s, x, x.issue.alu1);
        SelectedSurvives(isa, s, x, x.issue.br);
      } else {
        DispatchAllocates(isa, s, x);
        if s.br.Some? {
          ResolvingIsUsed(isa, s);
        }
      }
    }
  }
}
