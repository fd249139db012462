/** The load/store unit's load stage and output buffer, as registers. */
module LoadStage {
  import opened Prelude
  import opened Bytes
  import opened DataSide

  class LoadStage {
    var ld: Option<Load>
    var out: Option<Result>

    constructor ()
      ensures ld == None && out == None
    {
      ld, out := None, None;
    }

    /** One clock edge: later assignments override earlier ones. A finishing load claims the output buffer; the
        operation taken from the memory queue fills the load stage or the output buffer; a recovery then drops
        what is younger than the branch, and a flush leaves a load under way to run to completion unseen.
        `take` is the operation taken and `forward` the store queue's value for it; `older` is history. */
    method Clock<P>(flush: bool, squash: Option<nat>, grant: bool, loadDone: bool, loadResult: Lanes,
                    take: Option<HeadOp>, forward: Option<Lanes>, older: seq<Queued>, ghost s: State<P>, ghost x: Inputs)
      requires ld == s.ld && out == s.out && flush == x.flush && squash == x.squash && grant == x.grant
      requires loadDone == LoadDoneNow(s) && (loadDone ==> loadResult == LoadResult(s, x))
      requires take == (if HeadTaken(s, x) then x.head else None) && older == s.committed + s.sq
      requires take.Some? && take.value.HeadLoad? ==>
                 forward == if s.Cacheable(take.value.addr) && QueueForward(s, take.value).Hit? then Some(QueueValue(s, take.value)) else None
      modifies this
      ensures ld == LoadNext(s, x) && out == OutNext(s, x)
    {
      hide Stalls, LoadResult, QueueForward, QueueValue, Misaligned;
      var outFree := out.None? || grant;
      var ld', out' := ld, out;
      if flush {
        out' := None;
        if ld.Some? {
          ld' := Some(ld.value.(squashed := true));
        }
        if loadDone {
          ld' := None;
        }
      } else {
        if grant {
          out' := None;
        }
        if loadDone {
          if ld.value.squashed {
            ld' := None;
          } else if outFree {
            ld', out' := None, Some(LoadDone(ld.value.stamp, loadResult, ld.value));
          }
        }
        if take.Some? {
          var op := take.value;
          if op.IsMisaligned() {
            out' := Some(Faulted(op.Stamp()));
          } else if op.HeadStore? {
            out' := Some(StoreDone(op.q.stamp));
          } else {
            var issued := Load(false, op.stamp, op.addr, op.size, op.unsigned, older);
            if forward.Some? {
              out' := Some(LoadDone(op.stamp, forward.value, issued));
            } else {
              ld' := Some(issued);
            }
          }
        }
        if squash.Some? {
          if out.Some? && !grant && out.value.stamp > squash.value {
            out' := None;
          }
          if loadDone && !ld.value.squashed && outFree && ld.value.stamp > squash.value {
            out' := None;
          }
          if ld.Some? && ld.value.stamp > squash.value {
            ld' := if loadDone then None else Some(ld.value.(squashed := true));
          }
        }
      }
      ld, out := ld', out';
    }
  }
}
