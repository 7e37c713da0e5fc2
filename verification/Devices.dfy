/**
 What one serial device does, on values: its queue of operations, the progress of the one at the
 head, and a history of what crossed the wire (kernel/serial.c:394-757, include/mpx/device.h).

 An Option result of None means that the C code would dereference NULL or leave a buffer.
 */
module Devices {
  import opened Common
  import opened PcbQueues

  const RING_SIZE: nat := 32

  /** One queued request; `buf` is the first `size` bytes of the caller's buffer. */
  datatype Op = Op(rq: Ptr, write: bool, size: nat, buf: seq<byte>)

  /** A finished request, the byte count reported for it, and where in `received` it began. */
  datatype Done = Done(op: Op, count: nat, start: nat)

  datatype Dev = Dev(
    open: bool,
    ops: seq<Op>,
    idx: nat,
    event: bool,
    txInt: bool,             // bit 1 of the interrupt-enable register
    ring: seq<byte>,
    ringBegin: nat,
    ringEnd: nat,
    // history
    sent: seq<byte>,         // bytes handed to the transmitter
    received: seq<byte>,     // bytes taken from the receiver
    headStart: nat,          // |received| when the operation at the head became the head
    accepted: seq<Op>,
    done: seq<Done>)

  function DevNo(port: int): (d: int)
    ensures -1 <= d < 4
  {
    if port == 0x3f8 then 0
    else if port == 0x2f8 then 1
    else if port == 0x3e8 then 2
    else if port == 0x2e8 then 3
    else -1
  }

  /** The port address names device `d`. */
  predicate OnPort(port: int, d: int) {
    || (d == 0 && port == 0x3f8) || (d == 1 && port == 0x2f8)
    || (d == 2 && port == 0x3e8) || (d == 3 && port == 0x2e8)
  }

  /** COM1 to COM4 are devices 0 to 3, and no other address names a device. */
  lemma PortTable(port: int)
    ensures DevNo(port) == 0 <==> port == 0x3f8
    ensures DevNo(port) == 1 <==> port == 0x2f8
    ensures DevNo(port) == 2 <==> port == 0x3e8
    ensures DevNo(port) == 3 <==> port == 0x2e8
    ensures DevNo(port) == -1 <==> port != 0x3f8 && port != 0x2f8 && port != 0x3e8 && port != 0x2e8
  {
  }

  /** The ring buffer as the loader leaves it. */
  function ZeroRing(): (ring: seq<byte>)
    ensures |ring| == RING_SIZE
  {
    seq(RING_SIZE, i => 0)
  }

  function Wrap(i: nat, size: nat): nat {
    if i == size then 0 else i
  }

  /** Bytes that the initial copy of a READ takes out of the ring. */
  function RingTake(ring: seq<byte>, begin: nat, end: nat, room: nat): (taken: seq<byte>)
    ensures |taken| <= room
    decreases room
  {
    if begin < end && begin < |ring| && 0 < room then
      [ring[begin]] +
      if ring[begin] == CR then [] else RingTake(ring, Wrap(begin + 1, |ring|), end, room - 1)
    else []
  }

  function RingBegin(ring: seq<byte>, begin: nat, end: nat, room: nat): nat
    decreases room
  {
    if begin < end && begin < |ring| && 0 < room then
      if ring[begin] == CR then Wrap(begin + 1, |ring|)
      else RingBegin(ring, Wrap(begin + 1, |ring|), end, room - 1)
    else begin
  }

  /** The initial steps of the operation at the head. */
  function StartHead(d: Dev): Option<Dev> {
    if d.ops == [] then None
    else
      var op := d.ops[0];
      if op.write then
        if op.buf == [] then None
        else Some(d.(idx := 0, sent := d.sent + [op.buf[0]], txInt := true))
      else
        var taken := RingTake(d.ring, d.ringBegin, d.ringEnd, op.size);
        if |op.buf| < |taken| then None
        else Some(d.(idx := |taken|, ops := d.ops[0 := op.(buf := taken + op.buf[|taken|..])],
                     ringBegin := RingBegin(d.ring, d.ringBegin, d.ringEnd, op.size)))
  }

  function Accept(d: Dev, op: Op): Option<Dev> {
    var d' := d.(ops := d.ops + [op], accepted := d.accepted + [op]);
    if d.ops == [] then StartHead(d'.(headStart := |d.received|)) else Some(d')
  }

  function Input(d: Dev, b: byte): Option<Dev> {
    var d' := d.(received := d.received + [b]);
    if d.ops == [] then None
    else if d.ops[0].write then
      if |d.ring| <= d.ringEnd then None
      else Some(d'.(ring := d.ring[d.ringEnd := b],
                    ringBegin := if d.ringEnd == d.ringBegin then Wrap(d.ringBegin + 1, |d.ring|) else d.ringBegin,
                    ringEnd := Wrap(d.ringEnd + 1, |d.ring|)))
    else if d.event then Some(d')
    else
      var op := d.ops[0];
      if |op.buf| <= d.idx then None
      else Some(d'.(ops := d.ops[0 := op.(buf := op.buf[d.idx := b])], idx := d.idx + 1,
                    event := d.idx + 1 == op.size || b == CR))
  }

  function Output(d: Dev): Option<Dev> {
    if d.event then Some(d)
    else if d.ops == [] then None
    else if !d.ops[0].write then Some(d)
    else
      var op := d.ops[0];
      if d.idx + 1 == op.size then Some(d.(idx := d.idx + 1, event := true, txInt := false))
      else if |op.buf| <= d.idx + 1 then None
      else Some(d.(idx := d.idx + 1, sent := d.sent + [op.buf[d.idx + 1]]))
  }

  /** The device's half of serial_check_io once `event` is set: retire the head, start the next. */
  function Retire(d: Dev): Option<Dev> {
    if d.ops == [] then None
    else
      var d' := d.(event := false, ops := d.ops[1..], headStart := |d.received|,
                   done := d.done + [Done(d.ops[0], d.idx, d.headStart)]);
      if d'.ops == [] then Some(d')
      else StartHead(if d'.ops[0].write != d.ops[0].write && d.ops[0].write then d'.(txInt := false) else d')
  }

  function Opened(d: Dev): Dev {
    d.(open := true, event := false, ringBegin := 0, ringEnd := 0, txInt := false)
  }

  function Closed(d: Dev): Dev {
    d.(open := false, txInt := false)
  }

  // ---------------------------------------------------------------- invariants

  /** Flags, progress and queue agree; no handler can index outside a buffer. */
  ghost predicate Safe(d: Dev) {
    && |d.ring| == RING_SIZE && d.ringBegin == d.ringEnd < RING_SIZE
    && (!d.open ==> d.ops == [])
    && (d.event ==> d.ops != [])
    && (forall i :: 0 <= i < |d.ops| ==> 0 < d.ops[i].size == |d.ops[i].buf|)
    && (d.ops != [] && !d.event ==> d.idx < d.ops[0].size)
    && (d.event ==> 0 < d.idx <= d.ops[0].size && (d.ops[0].write ==> d.idx == d.ops[0].size))
    && (d.txInt <==> d.ops != [] && d.ops[0].write && !d.event)
  }

  /** All bytes of the finished WRITEs, in order. */
  function WrittenBy(done: seq<Done>): seq<byte> {
    if done == [] then []
    else
      var last := done[|done| - 1];
      WrittenBy(done[..|done| - 1]) + if last.op.write then last.op.buf else []
  }

  /** What the operation at the head has put on the wire so far. */
  function InFlight(d: Dev): seq<byte> {
    if d.ops == [] || !d.ops[0].write then []
    else if d.event || |d.ops[0].buf| <= d.idx then d.ops[0].buf
    else d.ops[0].buf[..d.idx + 1]
  }

  ghost predicate WriteStream(d: Dev) {
    d.sent == WrittenBy(d.done) + InFlight(d)
  }

  /** `buf[..n]` is what arrived from `start` on, and no byte before the last one is '\r'. */
  ghost predicate Frame(received: seq<byte>, start: nat, buf: seq<byte>, n: nat) {
    && n <= |buf| && start + n <= |received|
    && (forall i :: 0 <= i < n ==> buf[i] == received[start + i])
    && (forall i :: 0 <= i < n - 1 ==> buf[i] != CR)
  }

  /** A READ is over exactly at its first '\r' or at a full buffer. */
  ghost predicate FrameComplete(buf: seq<byte>, n: nat) {
    0 < n <= |buf| && (n == |buf| || buf[n - 1] == CR)
  }

  ghost predicate DoneOk(received: seq<byte>, r: Done) {
    && 0 < r.count <= r.op.size == |r.op.buf|
    && if r.op.write then r.count == r.op.size
       else Frame(received, r.start, r.op.buf, r.count) && FrameComplete(r.op.buf, r.count)
  }

  /** First received byte that a later READ may still take. */
  function DoneEnd(r: Done): nat {
    r.start + if r.op.write then 0 else r.count
  }

  ghost predicate ReadFraming(d: Dev) {
    && d.headStart <= |d.received|
    && (forall i :: 0 <= i < |d.done| ==> DoneOk(d.received, d.done[i]) && DoneEnd(d.done[i]) <= d.headStart)
    && (forall i, j :: 0 <= i < j < |d.done| ==> DoneEnd(d.done[i]) <= d.done[j].start)
    && (d.ops != [] && !d.ops[0].write ==>
          && Frame(d.received, d.headStart, d.ops[0].buf, d.idx)
          && (d.event ==> FrameComplete(d.ops[0].buf, d.idx))
          && (!d.event ==> |d.received| == d.headStart + d.idx && (d.idx > 0 ==> d.ops[0].buf[d.idx - 1] != CR)))
  }

  /** Same requester, direction and length; the payload of a WRITE is never altered. */
  ghost predicate SameRequest(a: Op, b: Op) {
    a.rq == b.rq && a.write == b.write && a.size == b.size && (a.write ==> a.buf == b.buf)
  }

  /** Every accepted operation is done or queued, in acceptance order. */
  ghost predicate Fifo(d: Dev) {
    && |d.accepted| == |d.done| + |d.ops|
    && (forall i :: 0 <= i < |d.done| ==> SameRequest(d.accepted[i], d.done[i].op))
    && (forall i :: 0 <= i < |d.ops| ==> SameRequest(d.accepted[|d.done| + i], d.ops[i]))
  }

  ghost predicate DevInv(d: Dev) {
    Safe(d) && WriteStream(d) && ReadFraming(d) && Fifo(d)
  }

  ghost predicate Fits(op: Op) {
    0 < op.size == |op.buf|
  }

  lemma AcceptKeepsQueue(d: Dev, op: Op)
    requires Safe(d) && Fifo(d) && d.open && Fits(op)
    ensures Accept(d, op).Some? && Safe(Accept(d, op).value) && Fifo(Accept(d, op).value)
  {
    if d.ops == [] {
      assert d.ops + [op] == [op];
    }
  }

  lemma AcceptKeepsStream(d: Dev, op: Op)
    requires Safe(d) && WriteStream(d) && Fits(op)
    ensures Accept(d, op).Some? && WriteStream(Accept(d, op).value)
  {
    if d.ops != [] {
      assert InFlight(Accept(d, op).value) == InFlight(d);
    }
  }

  lemma AcceptKeepsFraming(d: Dev, op: Op)
    requires Safe(d) && ReadFraming(d) && Fits(op)
    ensures Accept(d, op).Some? && ReadFraming(Accept(d, op).value)
  {
  }

  lemma AcceptKeeps(d: Dev, op: Op)
    requires DevInv(d) && d.open && Fits(op)
    ensures Accept(d, op).Some? && DevInv(Accept(d, op).value)
  {
    hide Accept, Safe, Fifo, WriteStream, ReadFraming;
    AcceptKeepsQueue(d, op);
    AcceptKeepsStream(d, op);
    AcceptKeepsFraming(d, op);
  }

  lemma InputKeepsFraming(d: Dev, b: byte)
    requires Safe(d) && ReadFraming(d) && d.ops != []
    ensures Input(d, b).Some? && ReadFraming(Input(d, b).value)
  {
    var d' := Input(d, b).value;
    forall i | 0 <= i < |d'.done| ensures DoneOk(d'.received, d'.done[i]) && DoneEnd(d'.done[i]) <= d'.headStart {
      assert DoneOk(d.received, d.done[i]);
    }
  }

  lemma InputKeeps(d: Dev, b: byte)
    requires DevInv(d) && d.ops != []
    ensures Input(d, b).Some? && DevInv(Input(d, b).value)
  {
    InputKeepsFraming(d, b);
    var d' := Input(d, b).value;
    assert InFlight(d') == InFlight(d);
    assert Safe(d');
    assert Fifo(d');
  }

  lemma OutputKeepsStream(d: Dev)
    requires Safe(d) && WriteStream(d) && d.txInt
    ensures Output(d).Some? && WriteStream(Output(d).value)
  {
    var buf := d.ops[0].buf;
    if d.idx + 1 < |buf| {
      assert buf[..d.idx + 2] == buf[..d.idx + 1] + [buf[d.idx + 1]];
    } else {
      assert buf[..d.idx + 1] == buf;
    }
  }

  lemma OutputKeeps(d: Dev)
    requires DevInv(d) && d.txInt
    ensures Output(d).Some? && DevInv(Output(d).value)
  {
    OutputKeepsStream(d);
    hide WriteStream;
  }

  /** The finished requests, with the head among them, are framed. */
  lemma FinishedFraming(d: Dev, d': Dev)
    requires Safe(d) && ReadFraming(d) && d.event
    requires d'.ops == [] && d'.received == d.received && d'.headStart == |d.received|
    requires d'.done == d.done + [Done(d.ops[0], d.idx, d.headStart)]
    ensures ReadFraming(d')
  {
    var r := Done(d.ops[0], d.idx, d.headStart);
    assert DoneOk(d.received, r);
  }

  /** A new head begins with what arrives next, as the ring is empty. */
  lemma StartFraming(d: Dev)
    requires ReadFraming(d.(ops := [])) && d.headStart == |d.received| && d.ringBegin == d.ringEnd
    requires d.ops != [] && !d.event && 0 < d.ops[0].size == |d.ops[0].buf|
    ensures StartHead(d).Some? && ReadFraming(StartHead(d).value)
  {
    hide DoneOk, DoneEnd;
  }

  lemma RetireKeepsFraming(d: Dev)
    requires Safe(d) && ReadFraming(d) && d.event
    ensures Retire(d).Some? && ReadFraming(Retire(d).value)
  {
    hide StartHead, ReadFraming;
    var d' := d.(event := false, ops := d.ops[1..], headStart := |d.received|,
                 done := d.done + [Done(d.ops[0], d.idx, d.headStart)]);
    FinishedFraming(d, d'.(ops := []));
    if |d.ops| == 1 {
      assert d'.(ops := []) == d' == Retire(d).value;
    } else {
      var d1 := if d.ops[1].write != d.ops[0].write && d.ops[0].write then d'.(txInt := false) else d';
      FinishedFraming(d, d1.(ops := []));
      StartFraming(d1);
    }
  }

  lemma RetireKeepsStream(d: Dev)
    requires Safe(d) && WriteStream(d) && d.event
    ensures Retire(d).Some? && WriteStream(Retire(d).value)
  {
    hide RingTake, RingBegin, WrittenBy, InFlight, StartHead;
    var r := Done(d.ops[0], d.idx, d.headStart);
    FinishedStream(d);
    if |d.ops| == 1 {
      IdleStream(Retire(d).value);
    } else {
      var d' := d.(event := false, ops := d.ops[1..], headStart := |d.received|, done := d.done + [r]);
      StartStream(if d.ops[1].write != d.ops[0].write && d.ops[0].write then d'.(txInt := false) else d');
    }
  }

  /** When the head is over, all it had to send is sent. */
  lemma FinishedStream(d: Dev)
    requires Safe(d) && WriteStream(d) && d.event
    ensures d.sent == WrittenBy(d.done + [Done(d.ops[0], d.idx, d.headStart)])
  {
    var done := d.done + [Done(d.ops[0], d.idx, d.headStart)];
    assert done[..|d.done|] == d.done;
    assert WrittenBy(done) == WrittenBy(d.done) + if d.ops[0].write then d.ops[0].buf else [];
  }

  lemma IdleStream(d: Dev)
    requires d.ops == [] && d.sent == WrittenBy(d.done)
    ensures WriteStream(d)
  {
  }

  /** A new head sends its first byte, if it is a WRITE. */
  lemma StartStream(d: Dev)
    requires d.ops != [] && !d.event && 0 < d.ops[0].size == |d.ops[0].buf| && d.sent == WrittenBy(d.done)
    ensures StartHead(d).Some? && WriteStream(StartHead(d).value)
  {
    hide RingTake, RingBegin, WrittenBy;
    if d.ops[0].write {
      assert d.ops[0].buf[..1] == [d.ops[0].buf[0]];
    }
  }

  lemma RetireKeepsQueue(d: Dev)
    requires Safe(d) && Fifo(d) && d.event
    ensures Retire(d).Some? && Safe(Retire(d).value) && Fifo(Retire(d).value)
  {
    var d' := Retire(d).value;
    assert d'.ops != [] ==> d'.ops[0] == d.ops[1];
    assert |d'.done| == |d.done| + 1;
  }

  lemma RetireKeeps(d: Dev)
    requires DevInv(d) && d.event
    ensures Retire(d).Some? && DevInv(Retire(d).value)
  {
    hide Retire, Safe, Fifo, WriteStream, ReadFraming;
    RetireKeepsFraming(d);
    RetireKeepsStream(d);
    RetireKeepsQueue(d);
  }

  lemma TransmitsForHead(d: Dev)
    requires DevInv(d) && d.txInt
    ensures d.ops != []
  {
  }

  lemma OpenCloseKeep(d: Dev)
    requires DevInv(d) && d.ops == []
    ensures !d.open ==> DevInv(Opened(d))
    ensures DevInv(Closed(d))
  {
  }
}
