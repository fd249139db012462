/** Every cycle of every run is one edge of each module, under the ports the design wires to it. */
module CorePorts {
  import opened Isa
  import opened Core
  import opened CoreInvariant
  import opened CoreTheorems
  import CoreTable
  import CoreBuffer
  import CoreStations
  import CoreRegisters
  import RAT = RenameTable
  import ROB = ReorderBuffer
  import RS = ReservationStation

  /** Every cycle of every run is one edge of the alias table and of the checkpoint and issue registers. */
  lemma RegistersFollowPorts<M>(isa: Isa<M>, states: seq<State<M>>, inputs: seq<Inputs>, n: nat)
    requires Decodes(isa) && IsRun(isa, states, inputs) && n < |inputs|
    ensures states[n].Shape() && states[n + 1].Shape()
    ensures var (s, s', x) := (states[n], states[n + 1], inputs[n]);
            var p := CoreRegisters.RegisterPorts(s, x);
            && CoreTable.TablePorts(s, x).Valid() && s'.rat == RAT.Edge(s.rat, CoreTable.TablePorts(s, x))
            && (forall k :: 0 <= k < RAT.CKPTS ==>
                  && s'.used[k] == CoreRegisters.UsedAfter(s.used[k], s.owner[k], k, p)
                  && s'.owner[k] == CoreRegisters.OwnerAfter(s.owner[k], k, p))
            && s'.alu0 == CoreRegisters.IssuedAfter(p.alu0, p) && s'.alu1 == CoreRegisters.IssuedAfter(p.alu1, p)
            && s'.br == CoreRegisters.IssuedAfter(p.br, p)
  {
    hide Inv, IsRun, Allowed, Next, RAT.Edge, CoreTable.TablePorts, CoreRegisters.RegisterPorts, CoreRegisters.UsedAfter,
         CoreRegisters.OwnerAfter, CoreRegisters.IssuedAfter;
    RunStep(isa, states, inputs, n);
    Reachable(isa, states, inputs, n);
    InvShape(isa, states[n]);
    CoreTable.TableFollowsPorts(isa, states[n], inputs[n]);
    CoreRegisters.RegistersFollowPorts(isa, states[n], inputs[n]);
  }

  /** Every cycle of every run is one edge of the reorder buffer, and of each reservation station. */
  lemma QueuesFollowPorts<M>(isa: Isa<M>, states: seq<State<M>>, inputs: seq<Inputs>, n: nat, cs: set<Class>, spec: bool)
    requires Decodes(isa) && IsRun(isa, states, inputs) && n < |inputs|
    requires forall c :: c in cs ==> SpecStation(c) == spec
    ensures states[n].Shape() && states[n + 1].Shape()
    ensures Allowed(isa, states[n], inputs[n]) && Inv(isa, states[n])
    ensures var (s, w', x) := (states[n], states[n + 1].w, inputs[n]);
            && ROB.Legal(s.w.head, |s.w.ops|, CoreBuffer.BufferPorts(isa, s, x))
            && w'.head == ROB.NextHead(s.w.head, CoreBuffer.BufferPorts(isa, s, x))
            && CoreBuffer.ViewAll(w'.ops, w'.phases) ==
               ROB.Next(s.w.head, CoreBuffer.ViewAll(s.w.ops, s.w.phases), CoreBuffer.BufferPorts(isa, s, x))
            && CoreStations.Station(w', cs) ==
               RS.Next(CoreStations.Station(s.w, cs), CoreStations.StationPorts(isa, s, x, cs), spec, CoreStations.IssuedFrom(s, x))
            && RS.FreshFor(CoreStations.Station(s.w, cs), CoreStations.StationPorts(isa, s, x, cs))
  {
    hide Inv, IsRun, Allowed, Next, RS.FreshFor, ROB.Next, ROB.Legal, ROB.NextHead, CoreBuffer.BufferPorts, CoreBuffer.ViewAll, RS.Next,
         CoreStations.Station, CoreStations.StationPorts, CoreStations.IssuedFrom;
    RunStep(isa, states, inputs, n);
    Reachable(isa, states, inputs, n);
    InvShape(isa, states[n]);
    CoreBuffer.BufferFollowsPorts(isa, states[n], inputs[n]);
    CoreStations.StationFollowsPorts(isa, states[n], inputs[n], cs, spec);
    CoreStations.InsertedTagsAreFresh(isa, states[n], inputs[n], cs);
  }
}
