/** Source operands of waiting instructions, and how broadcasts make them ready. */
module Wakeup {
  import opened Prelude
  import opened OooPackage

  /** A source operand: present, or named by the tag of its producer. `spec` marks one that is ready by a
      tag-only wake-up: its value is on a bus this very cycle. */
  datatype Operand = Operand(ready: bool, spec: bool, tag: Tag, value: Word)

  /** The three common data buses. */
  datatype Buses = Buses(bus0: Cdb, bus1: Cdb, bus2: Cdb)
  {
    predicate Carries(t: Tag) {
      (bus0.valid && bus0.tag == t) || (bus1.valid && bus1.tag == t) || (bus2.valid && bus2.tag == t)
    }

    /** Whatever any bus says about tag t, it says the value v. */
    ghost predicate Agree(t: Tag, v: Word) {
      && (bus0.valid && bus0.tag == t ==> bus0.value == v)
      && (bus1.valid && bus1.tag == t ==> bus1.value == v)
      && (bus2.valid && bus2.tag == t ==> bus2.value == v)
    }
  }

  /** Tag-only wake-ups: the tags of the ALU instructions being selected. */
  datatype TagWakes = TagWakes(wk0: Option<Tag>, wk1: Option<Tag>)
  {
    predicate Announces(t: Tag) {
      wk0 == Some(t) || wk1 == Some(t)
    }
  }

  /** Value wake-up: also completes a speculative one. */
  function Wake(o: Operand, c: Cdb): Operand {
    if c.valid && (!o.ready || o.spec) && o.tag == c.tag then Operand(true, false, o.tag, c.value) else o
  }

  /** Tag-only wake-up, in stations built for it: ready now, value on a bus next cycle. */
  function SpecWake(o: Operand, specWake: bool, wk: Option<Tag>): Operand {
    if specWake && wk.Some? && !o.ready && o.tag == wk.value then o.(ready := true, spec := true) else o
  }

  function AllWakes(o: Operand, b: Buses, specWake: bool, wk: TagWakes): Operand {
    SpecWake(SpecWake(Wake(Wake(Wake(o, b.bus0), b.bus1), b.bus2), specWake, wk.wk0), specWake, wk.wk1)
  }

  /** The value an issuing instruction uses: a speculatively woken operand comes from the bus. */
  function Resolve(o: Operand, b: Buses, specWake: bool): Word {
    if !specWake || !o.spec then o.value
    else if b.bus0.valid && b.bus0.tag == o.tag then b.bus0.value
    else if b.bus1.valid && b.bus1.tag == o.tag then b.bus1.value
    else if b.bus2.valid && b.bus2.tag == o.tag then b.bus2.value
    else o.value
  }

  /** What one cycle does to an operand, whichever buses and in whatever order they are looked at: a present
      one is untouched; a missing (or promised) value on a bus is captured; otherwise an announced one becomes
      promised; otherwise it waits on. */
  lemma WakesCapture(o: Operand, b: Buses, specWake: bool, wk: TagWakes, v: Word)
    requires b.Agree(o.tag, v) && (o.spec ==> o.ready)
    ensures AllWakes(o, b, specWake, wk) ==
            if o.ready && !o.spec then o
            else if b.Carries(o.tag) then Operand(true, false, o.tag, v)
            else if specWake && !o.ready && wk.Announces(o.tag) then o.(ready := true, spec := true)
            else o
  {
  }

  /** A promised value that is on a bus is the value an issuing instruction uses. */
  lemma ResolveTakesBus(o: Operand, b: Buses, v: Word)
    requires b.Agree(o.tag, v) && b.Carries(o.tag) && o.spec
    ensures Resolve(o, b, true) == v
  {
  }
}
