/** The serial port, with its transmitter wired to its receiver. */
module Uart {
  import opened Prelude

  /** A byte as its bits, lowest first, in the order they are sent. */
  type Bits = b: seq<bool> | |b| == 8 witness [false, false, false, false, false, false, false, false]

  type Shift10 = s: seq<bool> | |s| == 10 witness [true, true, true, true, true, true, true, true, true, true]

  // ---- the registers ----

  datatype Tx = Tx(line: bool, shift: Shift10, bits: nat, count: nat)

  datatype Rx = Rx(active: bool, bit: nat, count: nat, shift: Bits, done: bool)

  /** Start bit, data, stop bit. */
  function Frame(data: Bits): Shift10 {
    [false] + data + [true]
  }

  const ONES: Shift10 := [true, true, true, true, true, true, true, true, true, true]
  const IDLE := Tx(true, ONES, 0, 0)
  const QUIET := Rx(false, 0, 0, [false, false, false, false, false, false, false, false], false)

  /** One clock edge of the transmitter; `div` is the number of clocks a bit takes. */
  function TxNext(t: Tx, div: nat, start: Option<Bits>): Tx {
    if t.bits == 0 then
      if start.Some? then Tx(true, Frame(start.value), 10, 0) else t.(line := true)
    else if t.count + 1 == div then Tx(t.shift[0], t.shift[1..] + [true], t.bits - 1, 0)
    else Tx(t.shift[0], t.shift, t.bits, t.count + 1)
  }

  /** The receive shifter takes a bit in at the top. */
  function ShiftIn(b: Bits, bit: bool): Bits {
    b[1..] + [bit]
  }

  /** One clock edge of the receiver, which sees the synchronized line. */
  function RxNext(r: Rx, div: nat, line: bool): Rx
    requires div > 0
  {
    if !r.active then
      if line then r.(done := false) else Rx(true, 0, div / 2, r.shift, false)
    else if r.count != 0 then r.(count := r.count - 1, done := false)
    else if r.bit == 0 then Rx(!line, 1, div - 1, r.shift, false)
    else if r.bit <= 8 then Rx(true, r.bit + 1, div - 1, ShiftIn(r.shift, line), false)
    else Rx(false, r.bit, div - 1, r.shift, line)
  }

  // ---- where the transmitter is in a frame ----

  /** What is left in the shifter once j bits have gone. */
  function Rest(data: Bits, j: nat): Shift10
    requires j <= 10
  {
    Frame(data)[j..] + ONES[..j]
  }

  /** The transmitter is o clocks into bit j of the frame of `data`. */
  ghost predicate At(t: Tx, div: nat, data: Bits, j: nat, o: nat) {
    && j <= 9 && 1 <= o <= div && t.line == Frame(data)[j]
    && (if o < div then t.bits == 10 - j && t.count == o && t.shift == Rest(data, j)
        else t.bits == 9 - j && t.count == 0 && t.shift == Rest(data, j + 1))
  }

  ghost predicate Starting(t: Tx, data: Bits) {
    t == Tx(true, Frame(data), 10, 0)
  }

  lemma RestShifts(data: Bits, j: nat)
    requires j <= 9
    ensures Rest(data, j)[0] == Frame(data)[j] && Rest(data, j)[1..] + [true] == Rest(data, j + 1)
  {
  }

  lemma TxStep(t: Tx, div: nat, data: Bits, j: nat, o: nat, start: Option<Bits>)
    requires div >= 3 && At(t, div, data, j, o) && (j < 9 || o < div)
    ensures At(TxNext(t, div, start), div, data, if o < div then j else j + 1, if o < div then o + 1 else 1)
  {
    hide Rest, Frame;
    RestShifts(data, j);
    if o == div {
      RestShifts(data, j + 1);
    }
  }

  lemma TxStarts(t: Tx, div: nat, data: Bits, start: Option<Bits>)
    requires div >= 3 && Starting(t, data)
    ensures At(TxNext(t, div, start), div, data, 0, 1)
  {
    RestShifts(data, 0);
  }

  // ---- the receiver against the line it sees ----

  /** The receiver's next sample is of bit `bit`, in the clock that is 2 + div / 2 clocks into it. */
  ghost predicate InStep(r: Rx, div: nat, j: nat, o: nat) {
    (j == r.bit && o + r.count == 2 + div / 2) || (j + 1 == r.bit && o + r.count == 2 + div / 2 + div)
  }

  /** The data bits sampled so far sit at the top of the shifter. */
  ghost predicate Sampled(r: Rx, data: Bits) {
    r.bit <= 9 && (r.bit >= 1 ==> r.shift[9 - r.bit..] == data[..r.bit - 1])
  }

  /** Receiving: in the middle of the frame the transmitter is sending. */
  ghost predicate Receiving(t: Tx, r: Rx, div: nat, data: Bits, j: nat, o: nat) {
    r.active && !r.done && At(t, div, data, j, o) && InStep(r, div, j, o) && Sampled(r, data)
  }

  /** Not receiving: the line is idle, a frame is just starting, or the last one is in the rest of its stop bit. */
  ghost predicate Resting(t: Tx, r: Rx, div: nat, data: Bits, started: bool) {
    && !r.active
    && (if started then Starting(t, data) || At(t, div, data, 0, 1)
        else t.line && (t.bits == 0 || exists o :: 2 + div / 2 < o <= div && At(t, div, data, 9, o)))
  }

  /** How the two go together: `data` is the last frame started, `owed` whether it is still to be received. */
  ghost predicate Joint(t: Tx, r: Rx, div: nat, data: Bits, owed: bool) {
    (exists j, o :: Receiving(t, r, div, data, j, o) && owed) || Resting(t, r, div, data, owed)
  }

  lemma CountsDown(r: Rx, div: nat, line: bool, data: Bits)
    requires div > 0 && r.active && r.count > 0 && Sampled(r, data)
    ensures RxNext(r, div, line) == r.(count := r.count - 1, done := false) && Sampled(RxNext(r, div, line), data)
  {
    hide ShiftIn;
  }

  lemma CountdownStep(t: Tx, r: Rx, div: nat, data: Bits, j: nat, o: nat, start: Option<Bits>) returns (j': nat, o': nat)
    requires div >= 3 && Receiving(t, r, div, data, j, o) && r.count > 0
    ensures Receiving(TxNext(t, div, start), RxNext(r, div, t.line), div, data, j', o')
    ensures j' == (if o < div then j else j + 1) && o' == (if o < div then o + 1 else 1)
  {
    hide At, Frame, TxNext, RxNext, Sampled;
    NotLast(t, r, div, data, j, o);
    TxStep(t, div, data, j, o, start);
    CountsDown(r, div, t.line, data);
    j' := if o < div then j else j + 1;
    o' := if o < div then o + 1 else 1;
  }

  /** Until the stop bit is sampled the frame is not over. */
  lemma NotLast(t: Tx, r: Rx, div: nat, data: Bits, j: nat, o: nat)
    requires div >= 3 && Receiving(t, r, div, data, j, o) && (r.count > 0 || r.bit < 9)
    ensures (j < 9 || o < div) && j <= 9 && 1 <= o <= div
  {
  }

  lemma SampleStep(t: Tx, r: Rx, div: nat, data: Bits, j: nat, o: nat, start: Option<Bits>) returns (j': nat, o': nat)
    requires div >= 3 && Receiving(t, r, div, data, j, o) && r.count == 0 && r.bit < 9
    ensures Receiving(TxNext(t, div, start), RxNext(r, div, t.line), div, data, j', o')
    ensures j' == (if o < div then j else j + 1) && o' == (if o < div then o + 1 else 1)
  {
    hide At, Frame, TxNext, ShiftIn, Sampled;
    NotLast(t, r, div, data, j, o);
    TxStep(t, div, data, j, o, start);
    LineAt(t, div, data, j, o);
    SampledStep(r, data, t.line, div);
    j' := if o < div then j else j + 1;
    o' := if o < div then o + 1 else 1;
  }

  lemma LineAt(t: Tx, div: nat, data: Bits, j: nat, o: nat)
    requires At(t, div, data, j, o)
    ensures j <= 9 && t.line == Frame(data)[j]
  {
    hide Frame, Rest;
  }

  lemma SampledStep(r: Rx, data: Bits, line: bool, div: nat)
    requires div >= 3 && r.active && r.count == 0 && r.bit < 9 && Sampled(r, data) && line == Frame(data)[r.bit]
    ensures Sampled(RxNext(r, div, line), data) && RxNext(r, div, line).active && RxNext(r, div, line).bit == r.bit + 1
  {
    if r.bit >= 1 {
      var s := RxNext(r, div, line).shift;
      assert s[8 - r.bit..] == r.shift[9 - r.bit..] + [line];
      assert data[..r.bit] == data[..r.bit - 1] + [data[r.bit - 1]];
    }
  }

  /** The stop bit is sampled: the receiver hands over exactly the byte that was sent. */
  lemma StopStep(t: Tx, r: Rx, div: nat, data: Bits, j: nat, o: nat, start: Option<Bits>)
    requires div >= 3 && Receiving(t, r, div, data, j, o) && r.count == 0 && r.bit == 9
    ensures var (t', r') := (TxNext(t, div, start), RxNext(r, div, t.line));
            && r'.done && !r'.active && r'.shift == data
            && (if t.bits == 0 && start.Some? then Starting(t', start.value) else Resting(t', r', div, data, false))
            && (t.bits != 0 ==> !(t'.bits == 10 && t'.count == 0))
  {
    assert j == 9 && o == 2 + div / 2;
    var t' := TxNext(t, div, start);
    if o < div {
      TxStep(t, div, data, 9, o, start);
      assert At(t', div, data, 9, o + 1);
    }
  }

  /** The receiver at rest: it starts exactly when the start bit begins. */
  lemma RestStep(t: Tx, r: Rx, div: nat, data: Bits, owed: bool, start: Option<Bits>)
    requires div >= 3 && Resting(t, r, div, data, owed)
    ensures var (t', r') := (TxNext(t, div, start), RxNext(r, div, t.line));
            && !r'.done && r'.shift == r.shift
            && (if t.bits == 0 && start.Some? then !owed && Starting(t', start.value) && !r'.active else Joint(t', r', div, data, owed))
            && (t.bits != 0 ==> !(t'.bits == 10 && t'.count == 0))
  {
    var t' := TxNext(t, div, start);
    var r' := RxNext(r, div, t.line);
    if owed {
      if Starting(t, data) {
        TxStarts(t, div, data, start);
      } else {
        TxStep(t, div, data, 0, 1, start);
        assert Receiving(t', r', div, data, 0, 2);
      }
    } else if t.bits != 0 {
      var o :| 2 + div / 2 < o <= div && At(t, div, data, 9, o);
      TxStep(t, div, data, 9, o, start);
      assert At(t', div, data, 9, o + 1);
    }
  }

  // ---- the whole link ----

  /** A byte that reached the queue, and whether there was room for it. */
  datatype Arrival = Arrival(byte: Bits, kept: bool)

  /** The port with its transmitter wired to its receiver. The synchronizer's three bits are the lines of d1,
      d2 and d3, the transmitter's registers one, two and three clocks ago (which are history, like the logs). */
  datatype Link = Link(tx: Tx, d1: Tx, d2: Tx, d3: Tx, rx: Rx, queue: seq<Bits>, overrun: bool,
                       sent: seq<Bits>, arrived: seq<Arrival>, taken: seq<Bits>)

  const RESET := Link(IDLE, IDLE, IDLE, IDLE, QUIET, [], false, [], [], [])

  predicate Pops(s: Link, ack: bool) {
    ack && s.queue != []
  }

  predicate Pushes(s: Link, depth: nat, ack: bool) {
    s.rx.done && (|s.queue| != depth || Pops(s, ack))
  }

  function QueueNext(s: Link, depth: nat, ack: bool): seq<Bits> {
    (if Pops(s, ack) then s.queue[1..] else s.queue) + (if Pushes(s, depth, ack) then [s.rx.shift] else [])
  }

  function OverrunNext(s: Link, depth: nat, ack: bool): bool {
    if ack then false else s.overrun || (s.rx.done && !Pushes(s, depth, ack))
  }

  function Next(s: Link, div: nat, depth: nat, start: Option<Bits>, ack: bool): Link
    requires div > 0
  {
    Link(TxNext(s.tx, div, start), s.tx, s.d1, s.d2, RxNext(s.rx, div, s.d3.line),
         QueueNext(s, depth, ack), OverrunNext(s, depth, ack),
         if s.tx.bits == 0 && start.Some? then s.sent + [start.value] else s.sent,
         if s.rx.done then s.arrived + [Arrival(s.rx.shift, Pushes(s, depth, ack))] else s.arrived,
         if Pops(s, ack) then s.taken + [s.queue[0]] else s.taken)
  }

  /** A frame that has just been loaded into the shifter. */
  function Fresh(t: Tx): seq<Bits> {
    if t.bits == 10 && t.count == 0 then [t.shift[1..9]] else []
  }

  function Bytes(arrived: seq<Arrival>): (r: seq<Bits>)
    ensures |r| == |arrived|
  {
    if |arrived| == 0 then [] else Bytes(arrived[..|arrived| - 1]) + [arrived[|arrived| - 1].byte]
  }

  function Kept(arrived: seq<Arrival>): seq<Bits> {
    if |arrived| == 0 then []
    else Kept(arrived[..|arrived| - 1]) + if arrived[|arrived| - 1].kept then [arrived[|arrived| - 1].byte] else []
  }

  /** Consecutive transmitter states: the later one is one clock on, under some start input. */
  ghost predicate Follows(t: Tx, t': Tx, div: nat) {
    exists start: Option<Bits> :: t' == TxNext(t, div, start)
  }

  /** Every byte sent has arrived, is being handed over, is being received, or is still in the synchronizer. */
  ghost predicate Inv(s: Link, div: nat) {
    && Follows(s.d1, s.tx, div) && Follows(s.d2, s.d1, div) && Follows(s.d3, s.d2, div)
    && s.tx.bits <= 10 && Kept(s.arrived) == s.taken + s.queue
    && exists data: Bits, owed: bool ::
         && Joint(s.d3, s.rx, div, data, owed)
         && s.sent == Bytes(s.arrived) + (if s.rx.done then [s.rx.shift] else []) + (if owed then [data] else [])
                      + Fresh(s.d2) + Fresh(s.d1) + Fresh(s.tx)
  }

  lemma FreshMeans(t: Tx, t': Tx, div: nat, start: Option<Bits>)
    requires t' == TxNext(t, div, start) && t.bits == 0
    ensures Fresh(t') == if start.Some? then [start.value] else []
    ensures start.Some? ==> Starting(t', start.value)
  {
    if start.Some? {
      assert Frame(start.value)[1..9] == start.value;
    }
  }

  /** Only an idle transmitter loads a frame. */
  lemma BusyIsNotFresh(t: Tx, t': Tx, div: nat)
    requires div >= 3 && Follows(t, t', div) && t.bits != 0
    ensures t.bits <= 10 ==> Fresh(t') == []
  {
  }

  lemma FrameBits(t: Tx, r: Rx, div: nat, data: Bits, owed: bool)
    requires Joint(t, r, div, data, owed)
    ensures t.bits <= 10
  {
    hide Frame, Rest;
  }

  lemma SampledBit(r: Rx, data: Bits)
    requires Sampled(r, data)
    ensures r.bit <= 9
  {
  }

  lemma StillReceiving(t: Tx, r: Rx, div: nat, data: Bits, j: nat, o: nat)
    requires div >= 3 && Receiving(t, r, div, data, j, o) && (r.count > 0 || r.bit < 9)
    ensures t.bits != 0 && !RxNext(r, div, t.line).done
  {
    hide Frame, Rest;
  }

  /** One step of the delayed transmitter and the receiver: what is owed moves on by exactly one place. */
  lemma JointStep(t: Tx, r: Rx, div: nat, data: Bits, owed: bool, t': Tx) returns (data': Bits, owed': bool)
    requires div >= 3 && Joint(t, r, div, data, owed) && Follows(t, t', div)
    ensures var r' := RxNext(r, div, t.line);
            && Joint(t', r', div, data', owed')
            && (if owed then [data] else []) + Fresh(t') == (if r'.done then [r'.shift] else []) + (if owed' then [data'] else [])
  {
    hide At, Frame, Rest, TxNext, RxNext, InStep, Sampled, Starting, Fresh;
    var start: Option<Bits> :| t' == TxNext(t, div, start);
    var r' := RxNext(r, div, t.line);
    data', owed' := data, owed;
    if t.bits == 0 {
      FreshMeans(t, t', div, start);
    } else {
      FrameBits(t, r, div, data, owed);
      BusyIsNotFresh(t, t', div);
    }
    if j, o :| Receiving(t, r, div, data, j, o) && owed {
      if r.count > 0 {
        var j', o' := CountdownStep(t, r, div, data, j, o, start);
        StillReceiving(t, r, div, data, j, o);
      } else if r.bit < 9 {
        var j', o' := SampleStep(t, r, div, data, j, o, start);
        StillReceiving(t, r, div, data, j, o);
      } else {
        SampledBit(r, data);
        StopStep(t, r, div, data, j, o, start);
        if t.bits == 0 && start.Some? {
          data', owed' := start.value, true;
        } else {
          owed' := false;
        }
      }
    } else {
      RestStep(t, r, div, data, owed, start);
      if t.bits == 0 && start.Some? {
        data', owed' := start.value, true;
      }
    }
  }

  lemma Arrive(arrived: seq<Arrival>, a: Arrival)
    ensures Kept(arrived + [a]) == Kept(arrived) + if a.kept then [a.byte] else []
    ensures Bytes(arrived + [a]) == Bytes(arrived) + [a.byte]
  {
    assert (arrived + [a])[..|arrived|] == arrived;
  }

  lemma TakeOldest(taken: seq<Bits>, queue: seq<Bits>, more: seq<Bits>)
    requires queue != []
    ensures (taken + [queue[0]]) + (queue[1..] + more) == taken + queue + more
  {
    assert queue == [queue[0]] + queue[1..];
  }

  lemma LogStep(s: Link, div: nat, depth: nat, start: Option<Bits>, ack: bool)
    requires div > 0 && Kept(s.arrived) == s.taken + s.queue
    ensures var s' := Next(s, div, depth, start, ack);
            && Kept(s'.arrived) == s'.taken + s'.queue
            && Bytes(s'.arrived) == Bytes(s.arrived) + if s.rx.done then [s.rx.shift] else []
  {
    hide TxNext, RxNext, Kept, Bytes;
    Arrive(s.arrived, Arrival(s.rx.shift, Pushes(s, depth, ack)));
    if Pops(s, ack) {
      TakeOldest(s.taken, s.queue, if Pushes(s, depth, ack) then [s.rx.shift] else []);
    }
    assert Bytes(s.arrived) + [] == Bytes(s.arrived);
  }

  lemma NextKeepsInv(s: Link, div: nat, depth: nat, start: Option<Bits>, ack: bool)
    requires div >= 3 && Inv(s, div)
    ensures Inv(Next(s, div, depth, start, ack), div)
  {
    hide TxNext, RxNext, Joint, Fresh, QueueNext, OverrunNext, Bytes, Kept, Pops, Pushes;
    var s' := Next(s, div, depth, start, ack);
    LogStep(s, div, depth, start, ack);
    var data: Bits, owed: bool :|
      && Joint(s.d3, s.rx, div, data, owed)
      && s.sent == Bytes(s.arrived) + (if s.rx.done then [s.rx.shift] else []) + (if owed then [data] else [])
                   + Fresh(s.d2) + Fresh(s.d1) + Fresh(s.tx);
    var data', owed' := JointStep(s.d3, s.rx, div, data, owed, s.d2);
    NewFrame(s.tx, div, start);
    assert Follows(s.tx, s'.tx, div);
    SentStep(Bytes(s.arrived) + (if s.rx.done then [s.rx.shift] else []), if owed then [data] else [], Fresh(s.d2), Fresh(s.d1), Fresh(s.tx),
             if s'.rx.done then [s'.rx.shift] else [], if owed' then [data'] else [], Fresh(s'.tx));
  }

  /** The transmitter loads a frame exactly when it is idle and told to start. */
  lemma NewFrame(t: Tx, div: nat, start: Option<Bits>)
    requires t.bits <= 10
    ensures TxNext(t, div, start).bits <= 10
    ensures Fresh(TxNext(t, div, start)) == if t.bits == 0 && start.Some? then [start.value] else []
  {
    if t.bits == 0 && start.Some? {
      assert Frame(start.value)[1..9] == start.value;
    }
  }

  lemma SentStep(a: seq<Bits>, b: seq<Bits>, c: seq<Bits>, d: seq<Bits>, e: seq<Bits>, b1: seq<Bits>, b2: seq<Bits>, f: seq<Bits>)
    requires b + c == b1 + b2
    ensures a + b + c + d + e + f == a + b1 + b2 + d + e + f
  {
    assert a + b + c == a + (b + c);
    assert a + b1 + b2 == a + (b1 + b2);
  }

  // ---- runs ----

  lemma ResetHolds(div: nat)
    requires div >= 3
    ensures Inv(RESET, div)
  {
    assert TxNext(IDLE, div, None) == IDLE;
    assert Follows(IDLE, IDLE, div);
    assert Joint(IDLE, QUIET, div, [false, false, false, false, false, false, false, false], false);
    assert Fresh(IDLE) == [] && Bytes([]) == [] && Kept([]) == [];
  }

  datatype Inputs = Inputs(start: Option<Bits>, ack: bool)

  ghost predicate IsRun(div: nat, depth: nat, states: seq<Link>, inputs: seq<Inputs>)
    requires div > 0
  {
    && |states| == |inputs| + 1 && states[0] == RESET
    && forall i :: 0 <= i < |inputs| ==> states[i + 1] == Next(states[i], div, depth, inputs[i].start, inputs[i].ack)
  }

  lemma {:induction false} Reachable(div: nat, depth: nat, states: seq<Link>, inputs: seq<Inputs>, n: nat)
    requires div >= 3 && IsRun(div, depth, states, inputs) && n < |states|
    ensures Inv(states[n], div)
  {
    hide Inv, Next;
    if n == 0 {
      ResetHolds(div);
    } else {
      Reachable(div, depth, states, inputs, n - 1);
      NextKeepsInv(states[n - 1], div, depth, inputs[n - 1].start, inputs[n - 1].ack);
    }
  }

  /** The link theorem, for any bit time of at least three clocks and any pattern of sends and acknowledges: the
      bytes that reached the queue are the bytes sent, in order and once each, so far as they have got; those
      there was room for come out in order and once each; and once both ends are at rest everything sent has
      arrived. */
  lemma BytesArriveInOrder(div: nat, depth: nat, states: seq<Link>, inputs: seq<Inputs>, n: nat)
    requires div >= 3 && IsRun(div, depth, states, inputs) && n < |states|
    ensures var s := states[n];
            && Bytes(s.arrived) <= s.sent
            && Kept(s.arrived) == s.taken + s.queue
            && (s.tx.bits == 0 && s.d1.bits == 0 && s.d2.bits == 0 && s.d3.bits == 0 && !s.rx.active && !s.rx.done ==> Bytes(s.arrived) == s.sent)
  {
    hide IsRun, Follows, Joint, Bytes, Kept;
    Reachable(div, depth, states, inputs, n);
    var s := states[n];
    var data: Bits, owed: bool :|
      && Joint(s.d3, s.rx, div, data, owed)
      && s.sent == Bytes(s.arrived) + (if s.rx.done then [s.rx.shift] else []) + (if owed then [data] else [])
                   + Fresh(s.d2) + Fresh(s.d1) + Fresh(s.tx);
    if s.d3.bits == 0 && !s.rx.active {
      NothingOwed(s.d3, s.rx, div, data, owed);
    }
  }

  lemma NothingOwed(t: Tx, r: Rx, div: nat, data: Bits, owed: bool)
    requires div >= 3 && Joint(t, r, div, data, owed) && t.bits == 0 && !r.active
    ensures !owed
  {
    hide Frame, Rest;
  }

  // ---- when a byte arrives ----

  /** How many clocks after its start a byte reaches the queue: nine bit times, half of the stop bit, the three bits
      of the synchronizer, and the handovers. */
  function Latency(div: nat): nat {
    9 * div + div / 2 + 8
  }

  lemma StepOf(div: nat, depth: nat, states: seq<Link>, inputs: seq<Inputs>, n: nat)
    requires div >= 3 && IsRun(div, depth, states, inputs) && n < |inputs|
    ensures |states| == |inputs| + 1 && states[n + 1] == Next(states[n], div, depth, inputs[n].start, inputs[n].ack)
  {
    hide Next;
  }

  /** A loaded frame is busy for the next clocks. */
  lemma FrameStarts(t: Tx, div: nat, b: Bits, s0: Option<Bits>, s1: Option<Bits>, s2: Option<Bits>)
    requires div >= 3 && Starting(t, b)
    ensures var t1 := TxNext(t, div, s0);
            var t2 := TxNext(t1, div, s1);
            var t3 := TxNext(t2, div, s2);
            && t1.bits != 0 && t2.bits != 0 && Fresh(t1) == Fresh(t2) == Fresh(t3) == []
  {
    hide Frame;
  }

  /** Four clocks after it is accepted a byte leaves the synchronizer, and exactly the bytes sent before it have
      arrived or are being handed over. */
  lemma Emerges(div: nat, depth: nat, states: seq<Link>, inputs: seq<Inputs>, m: nat, b: Bits)
    requires div >= 3 && IsRun(div, depth, states, inputs) && m + 4 < |states|
    requires |states| == |inputs| + 1 && states[m].tx.bits == 0 && inputs[m].start == Some(b)
    ensures var (s, k) := (states[m + 4], |states[m].sent|);
            && Starting(s.d3, b) && !s.rx.active && Resting(s.d3, s.rx, div, b, true)
            && |s.arrived| + (if s.rx.done then 1 else 0) == k
  {
    hide IsRun, Joint, Starting, Follows, Kept, Fresh, QueueNext, Pushes, Pops, OverrunNext, RxNext, TxNext;
    StepOf(div, depth, states, inputs, m);
    StepOf(div, depth, states, inputs, m + 1);
    StepOf(div, depth, states, inputs, m + 2);
    StepOf(div, depth, states, inputs, m + 3);
    FreshMeans(states[m].tx, states[m + 1].tx, div, Some(b));
    FrameStarts(states[m + 1].tx, div, b, inputs[m + 1].start, inputs[m + 2].start, inputs[m + 3].start);
    Reachable(div, depth, states, inputs, m + 4);
    var s := states[m + 4];
    assert |s.sent| == |states[m].sent| + 1;
    var data: Bits, owed: bool :|
      && Joint(s.d3, s.rx, div, data, owed)
      && s.sent == Bytes(s.arrived) + (if s.rx.done then [s.rx.shift] else []) + (if owed then [data] else [])
                   + Fresh(s.d2) + Fresh(s.d1) + Fresh(s.tx);
    StartIsOwed(s.d3, s.rx, div, data, owed, b);
  }

  lemma StartIsOwed(t: Tx, r: Rx, div: nat, data: Bits, owed: bool, b: Bits)
    requires div >= 3 && Joint(t, r, div, data, owed) && Starting(t, b)
    ensures owed && data == b && !r.active && Resting(t, r, div, b, true)
  {
    if Resting(t, r, div, data, owed) && owed && Starting(t, data) {
      assert Frame(data)[1..9] == data && Frame(b)[1..9] == b;
    }
  }

  /** The receiver is in step with bit j of the frame of b, o clocks into it, and k bytes have arrived. */
  ghost predicate Tracks(s: Link, div: nat, b: Bits, k: nat, clocks: nat) {
    |s.arrived| == k && exists j: nat, o: nat :: Receiving(s.d3, s.rx, div, b, j, o) && j * div + o == clocks
  }

  lemma StartsTracking(s: Link, div: nat, depth: nat, b: Bits, x0: Inputs, x1: Inputs)
    requires div >= 3 && Resting(s.d3, s.rx, div, b, true) && Starting(s.d3, b) && Follows(s.d3, s.d2, div) && Follows(s.d2, s.d1, div)
    ensures var s1 := Next(s, div, depth, x0.start, x0.ack);
            var s2 := Next(s1, div, depth, x1.start, x1.ack);
            Tracks(s2, div, b, |s.arrived| + (if s.rx.done then 1 else 0), 2)
  {
    hide QueueNext, OverrunNext, Pops, Pushes, Frame, Rest;
    var s1 := Next(s, div, depth, x0.start, x0.ack);
    var s2 := Next(s1, div, depth, x1.start, x1.ack);
    var a: Option<Bits> :| s.d2 == TxNext(s.d3, div, a);
    TxStarts(s.d3, div, b, a);
    RestStep(s.d3, s.rx, div, b, true, a);
    var c: Option<Bits> :| s.d1 == TxNext(s.d2, div, c);
    TxStep(s1.d3, div, b, 0, 1, c);
    LineAt(s1.d3, div, b, 0, 1);
    FrameLow(b);
    assert Receiving(s2.d3, s2.rx, div, b, 0, 2);
    assert 0 * div + 2 == 2;
  }

  lemma FrameLow(b: Bits)
    ensures !Frame(b)[0]
  {
  }

  lemma KeepsTracking(s: Link, div: nat, depth: nat, b: Bits, k: nat, clocks: nat, x: Inputs)
    requires div >= 3 && Tracks(s, div, b, k, clocks) && Follows(s.d3, s.d2, div) && clocks < 9 * div + div / 2 + 2
    ensures Tracks(Next(s, div, depth, x.start, x.ack), div, b, k, clocks + 1)
  {
    hide QueueNext, OverrunNext, Pops, Pushes, At, TxNext, RxNext, Sampled;
    var j: nat, o: nat :| Receiving(s.d3, s.rx, div, b, j, o) && j * div + o == clocks;
    var a: Option<Bits> :| s.d2 == TxNext(s.d3, div, a);
    InsideFrame(s.d3, div, b, j, o);
    SampledBit(s.rx, b);
    NotYet(s.rx, div, j, o);
    var j', o' := j, o;
    if s.rx.count > 0 {
      j', o' := CountdownStep(s.d3, s.rx, div, b, j, o, a);
    } else {
      j', o' := SampleStep(s.d3, s.rx, div, b, j, o, a);
    }
    assert (j + 1) * div == j * div + div;
    assert j' * div + o' == clocks + 1;
  }

  /** Before the middle of the stop bit the receiver has a sample to take. */
  lemma NotYet(r: Rx, div: nat, j: nat, o: nat)
    requires InStep(r, div, j, o) && o <= div && j * div + o < 9 * div + div / 2 + 2
    ensures r.count > 0 || r.bit != 9
  {
  }

  lemma InsideFrame(t: Tx, div: nat, b: Bits, j: nat, o: nat)
    requires At(t, div, b, j, o)
    ensures j <= 9 && 1 <= o <= div
  {
    hide Frame, Rest;
  }

  /** At the middle of the stop bit the byte is handed over, and the clock after that it is in the queue's log. */
  lemma EndsTracking(s: Link, div: nat, depth: nat, b: Bits, k: nat, x0: Inputs, x1: Inputs)
    requires div >= 3 && Tracks(s, div, b, k, 9 * div + div / 2 + 2) && Follows(s.d3, s.d2, div)
    ensures var s1 := Next(s, div, depth, x0.start, x0.ack);
            var s2 := Next(s1, div, depth, x1.start, x1.ack);
            |s1.arrived| == k && |s2.arrived| == k + 1 && s2.arrived[k].byte == b
  {
    hide QueueNext, OverrunNext, Pops, Pushes, TxNext, RxNext, Receiving, Tracks;
    HandsOver(s, div, b, k);
  }

  lemma HandsOver(s: Link, div: nat, b: Bits, k: nat)
    requires div >= 3 && Tracks(s, div, b, k, 9 * div + div / 2 + 2) && Follows(s.d3, s.d2, div)
    ensures |s.arrived| == k && !s.rx.done
    ensures RxNext(s.rx, div, s.d3.line).done && RxNext(s.rx, div, s.d3.line).shift == b
  {
    hide At, TxNext, RxNext, Sampled, Resting, Starting;
    var j: nat, o: nat :| Receiving(s.d3, s.rx, div, b, j, o) && j * div + o == 9 * div + div / 2 + 2;
    InsideFrame(s.d3, div, b, j, o);
    var a: Option<Bits> :| s.d2 == TxNext(s.d3, div, a);
    SampledBit(s.rx, b);
    LastBit(div, j, o);
    StopStep(s.d3, s.rx, div, b, j, o, a);
  }

  lemma LastBit(div: nat, j: nat, o: nat)
    requires div >= 3 && j <= 9 && 1 <= o <= div && j * div + o == 9 * div + div / 2 + 2
    ensures j == 9 && o == div / 2 + 2
  {
    assert (j + 1) * div == j * div + div;
    if j < 9 {
      TimesMonotone(j + 1, 9, div);
    }
  }

  lemma TimesMonotone(x: nat, y: nat, z: nat)
    requires x <= y
    ensures x * z <= y * z
  {
  }

  lemma {:induction false} Tracked(div: nat, depth: nat, states: seq<Link>, inputs: seq<Inputs>, m: nat, b: Bits, clocks: nat)
    requires div >= 3 && IsRun(div, depth, states, inputs) && 2 <= clocks <= 9 * div + div / 2 + 2 && m + 4 + clocks < |states|
    requires |states| == |inputs| + 1 && states[m].tx.bits == 0 && inputs[m].start == Some(b)
    ensures Tracks(states[m + 4 + clocks], div, b, |states[m].sent|, clocks)
  {
    hide IsRun, Next, Tracks, Joint, Follows, Fresh, Bytes, Kept, Resting, Starting;
    if clocks == 2 {
      Emerges(div, depth, states, inputs, m, b);
      StepOf(div, depth, states, inputs, m + 4);
      StepOf(div, depth, states, inputs, m + 5);
      Reachable(div, depth, states, inputs, m + 4);
      StartsTracking(states[m + 4], div, depth, b, inputs[m + 4], inputs[m + 5]);
    } else {
      var n := m + 3 + clocks;
      Tracked(div, depth, states, inputs, m, b, clocks - 1);
      StepOf(div, depth, states, inputs, n);
      Reachable(div, depth, states, inputs, n);
      KeepsTracking(states[n], div, depth, b, |states[m].sent|, clocks - 1, inputs[n]);
    }
  }

  lemma {:induction false} ArrivalsStay(div: nat, depth: nat, states: seq<Link>, inputs: seq<Inputs>, m: nat, n: nat)
    requires div >= 3 && IsRun(div, depth, states, inputs) && m <= n < |states|
    ensures states[m].arrived <= states[n].arrived
    decreases n
  {
    if m < n {
      ArrivalsStay(div, depth, states, inputs, m, n - 1);
    }
  }

  /** The clocks up to bit j of a frame. */
  function Before(j: nat, div: nat): nat {
    if j == 0 then 0 else Before(j - 1, div) + div
  }

  lemma {:induction false} OnLine(div: nat, depth: nat, states: seq<Link>, inputs: seq<Inputs>, m: nat, b: Bits, j: nat, o: nat)
    requires div >= 3 && IsRun(div, depth, states, inputs) && m < |inputs| && j <= 9 && 1 <= o <= div
    requires states[m].tx.bits == 0 && inputs[m].start == Some(b) && m + 1 + Before(j, div) + o < |states|
    ensures At(states[m + 1 + Before(j, div) + o].tx, div, b, j, o)
    decreases j, o
  {
    hide At, TxNext, RxNext, QueueNext, OverrunNext;
    var n := m + Before(j, div) + o;
    assert states[n + 1].tx == TxNext(states[n].tx, div, inputs[n].start);
    if o > 1 {
      OnLine(div, depth, states, inputs, m, b, j, o - 1);
      TxStep(states[n].tx, div, b, j, o - 1, inputs[n].start);
    } else if j > 0 {
      OnLine(div, depth, states, inputs, m, b, j - 1, div);
      TxStep(states[n].tx, div, b, j - 1, div, inputs[n].start);
    } else {
      assert states[m + 1].tx == TxNext(states[m].tx, div, inputs[m].start);
      Accepted(states[m].tx, div, b);
      TxStarts(states[n].tx, div, b, inputs[n].start);
    }
  }

  lemma Accepted(t: Tx, div: nat, b: Bits)
    requires t.bits == 0
    ensures Starting(TxNext(t, div, Some(b)), b)
  {
  }

  /** What is on the line for a byte accepted in clock m: a low start bit, the byte's bits, lowest first, and a high stop
      bit, each for div clocks. */
  lemma LineCarriesByte(div: nat, depth: nat, states: seq<Link>, inputs: seq<Inputs>, m: nat, b: Bits, j: nat, o: nat)
    requires div >= 3 && IsRun(div, depth, states, inputs) && m < |inputs| && j <= 9 && 1 <= o <= div
    requires states[m].tx.bits == 0 && inputs[m].start == Some(b) && m + 1 + Before(j, div) + o < |states|
    ensures states[m + 1 + Before(j, div) + o].tx.line == if j == 0 then false else if j == 9 then true else b[j - 1]
  {
    hide IsRun;
    OnLine(div, depth, states, inputs, m, b, j, o);
  }

  /** The delivery theorem: a byte the transmitter accepts in clock m has arrived exactly Latency(div) clocks later,
      not before, in the place of the log that its place among the bytes sent gives it, and stays there: whatever
      else is sent, acknowledged or dropped meanwhile. */
  lemma ByteArrivesOnTime(div: nat, depth: nat, states: seq<Link>, inputs: seq<Inputs>, m: nat, b: Bits, n: nat)
    requires div >= 3 && IsRun(div, depth, states, inputs) && m < |inputs| && n < |states|
    requires states[m].tx.bits == 0 && inputs[m].start == Some(b)
    ensures n >= m + Latency(div) ==> |states[m].sent| < |states[n].arrived| && states[n].arrived[|states[m].sent|].byte == b
    ensures n < m + Latency(div) < |states| ==> |states[n].arrived| <= |states[m].sent|
  {
    hide IsRun, Next, Tracks, Follows, Joint, Fresh, Bytes, Kept;
    StepOf(div, depth, states, inputs, m);
    var e := m + Latency(div);
    if e < |states| {
      Tracked(div, depth, states, inputs, m, b, 9 * div + div / 2 + 2);
      StepOf(div, depth, states, inputs, e - 2);
      StepOf(div, depth, states, inputs, e - 1);
      Reachable(div, depth, states, inputs, e - 2);
      EndsTracking(states[e - 2], div, depth, b, |states[m].sent|, inputs[e - 2], inputs[e - 1]);
      if n >= e {
        ArrivalsStay(div, depth, states, inputs, e, n);
      } else {
        ArrivalsStay(div, depth, states, inputs, n, e - 1);
      }
    }
  }

  /** A byte is dropped exactly when it reaches a full queue that is not being read, and that sets the flag,
      which stays until an acknowledge. */
  lemma DropsAreFlagged(s: Link, div: nat, depth: nat, start: Option<Bits>, ack: bool)
    requires div > 0 && depth > 0
    ensures var s' := Next(s, div, depth, start, ack);
            && (s.rx.done ==>
                  |s'.arrived| == |s.arrived| + 1 && s'.arrived[|s.arrived|].byte == s.rx.shift &&
                  (!s'.arrived[|s.arrived|].kept <==> |s.queue| == depth && !ack))
            && (!s.rx.done ==> s'.arrived == s.arrived)
            && (s.rx.done && !s'.arrived[|s.arrived|].kept ==> s'.overrun)
            && (s.overrun && !ack ==> s'.overrun)
            && (s'.overrun && !s.overrun ==> s.rx.done && |s.queue| == depth && !ack)
  {
    hide TxNext, RxNext;
  }

  // ---- the port as the design clocks it ----

  class Port {
    const div: nat
    const fifo: array<Bits>
    var tx: Tx
    var sync0: bool
    var sync1: bool
    var sync2: bool
    var rx: Rx
    var overrun: bool
    var head: nat
    var tail: nat
    var count: nat

    ghost predicate Valid()
      reads this, fifo
    {
      && div >= 3 && fifo.Length > 0 && head < fifo.Length && count <= fifo.Length && tail == Wrap(head + count)
    }

    function Wrap(i: nat): nat {
      if i >= fifo.Length then i - fifo.Length else i
    }

    ghost function Rows(h: nat, n: nat): (q: seq<Bits>)
      requires h < fifo.Length && n <= fifo.Length
      reads fifo
      ensures |q| == n && forall i :: 0 <= i < n ==> q[i] == fifo[Wrap(h + i)]
    {
      if n == 0 then [] else Rows(h, n - 1) + [fifo[Wrap(h + n - 1)]]
    }

    ghost function Queue(): seq<Bits>
      requires Valid()
      reads this, fifo
    {
      Rows(head, count)
    }

    constructor (div: nat, depth: nat)
      requires div >= 3 && depth > 0
      ensures Valid() && Queue() == [] && tx == IDLE && rx == QUIET && sync0 && sync1 && sync2 && !overrun && fresh(fifo)
      ensures this.div == div && fifo.Length == depth
    {
      this.div := div;
      fifo := new Bits[depth](_ => [false, false, false, false, false, false, false, false]);
      tx, rx := IDLE, QUIET;
      sync0, sync1, sync2, overrun := true, true, true, false;
      head, tail, count := 0, 0, 0;
    }

    /** The oldest received byte, if there is one. */
    method Received() returns (valid: bool, data: Bits)
      requires Valid()
      ensures valid == (Queue() != []) && (valid ==> data == Queue()[0])
    {
      valid, data := count != 0, fifo[head];
    }

    method ClockTransmit(start: Option<Bits>)
      requires Valid()
      modifies `tx
      ensures tx == TxNext(old(tx), div, start)
    {
      hide Frame;
      if tx.bits == 0 {
        if start.Some? {
          tx := Tx(true, Frame(start.value), 10, 0);
        } else {
          tx := tx.(line := true);
        }
      } else {
        tx := tx.(line := tx.shift[0]);
        if tx.count == div - 1 {
          tx := tx.(count := 0, shift := tx.shift[1..] + [true], bits := tx.bits - 1);
        } else {
          tx := tx.(count := tx.count + 1);
        }
      }
    }

    method ClockReceive()
      requires Valid()
      modifies `rx
      ensures rx == RxNext(old(rx), div, sync2)
    {
      var r := rx.(done := false);
      if !r.active {
        if !sync2 {
          r := r.(active := true, bit := 0, count := div / 2);
        }
      } else if r.count != 0 {
        r := r.(count := r.count - 1);
      } else {
        r := r.(count := div - 1);
        if r.bit == 0 {
          if sync2 {
            r := r.(active := false);
          }
          r := r.(bit := 1);
        } else if r.bit <= 8 {
          r := r.(shift := ShiftIn(r.shift, sync2), bit := r.bit + 1);
        } else {
          r := r.(active := false, done := sync2);
        }
      }
      rx := r;
    }

    method Push(b: Bits)
      requires Valid() && count < fifo.Length
      modifies `tail, `count, fifo
      ensures Valid() && Queue() == old(Queue()) + [b] && head == old(head) && count == old(count) + 1
    {
      ghost var was := Queue();
      fifo[tail] := b;
      tail := if tail == fifo.Length - 1 then 0 else tail + 1;
      count := count + 1;
      assert Rows(head, count - 1) == was;
    }

    method Pop()
      requires Valid() && count > 0
      modifies `head, `count
      ensures Valid() && Queue() == old(Queue())[1..] && count == old(count) - 1
    {
      ghost var was := Queue();
      head := if head == fifo.Length - 1 then 0 else head + 1;
      count := count - 1;
      assert Queue() == was[1..];
    }

    /** The queue's part of an edge: a finished byte goes in, an acknowledged one comes out. */
    method ClockQueue(ack: bool, ghost s: Link)
      requires Valid() && s.rx == rx && s.queue == Queue() && s.overrun == overrun
      modifies `head, `tail, `count, `overrun, fifo
      ensures Valid() && Queue() == QueueNext(s, fifo.Length, ack) && overrun == OverrunNext(s, fifo.Length, ack)
    {
      hide Rows, Wrap;
      QueueSize();
      var pop := ack && count != 0;
      var push := rx.done && (count != fifo.Length || pop);
      if ack {
        overrun := false;
      } else if rx.done && !push {
        overrun := true;
      }
      if pop {
        Pop();
      }
      if push {
        Push(rx.shift);
      }
    }

    /** One clock edge of the whole port, with `line` on its receive pin: each part moves as the link's step
        says, on the values the registers had before. */
    method Clock(start: Option<Bits>, line: bool, ack: bool, ghost s: Link)
      requires Valid() && s.rx == rx && s.queue == Queue() && s.overrun == overrun
      modifies this, fifo
      ensures Valid() && tx == TxNext(old(tx), div, start) && rx == RxNext(old(rx), div, old(sync2))
      ensures sync0 == line && sync1 == old(sync0) && sync2 == old(sync1)
      ensures Queue() == QueueNext(s, fifo.Length, ack) && overrun == OverrunNext(s, fifo.Length, ack)
    {
      hide TxNext, RxNext, Rows, Wrap, QueueNext, OverrunNext;
      ClockQueue(ack, s);
      ClockTransmit(start);
      ClockReceive();
      sync2 := sync1;
      sync1 := sync0;
      sync0 := line;
    }

    lemma QueueSize()
      requires Valid()
      ensures |Queue()| == count
    {
    }
  }
}
