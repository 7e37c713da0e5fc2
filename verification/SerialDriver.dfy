/**
 The interrupt-driven half of the serial driver, statement by statement (kernel/serial.c:394-757).
 A device control block is passed in and handed back, together with the abstract device it represents; each
 method is proved to have the effect that Devices gives it, and so to keep the device invariant.
 */
module SerialDriver {
  import opened Common
  import opened PcbQueues
  import opened PcbMemory
  import opened Devices
  import opened ControlBlocks

  const ERR_DEV_NOT_FOUND: int := -1
  const O_ERR_INVALID_SPEED: int := -102
  const O_ERR_PORT_ALREADY_OPEN: int := -103
  const C_ERR_PORT_NOT_OPEN: int := -201
  const C_ERR_DEV_BUSY: int := -204
  const R_ERR_PORT_NOT_OPEN: int := -301
  const R_ERR_INVALID_BUFFER: int := -302
  const R_ERR_INVALID_BUF_LEN: int := -303
  const R_ERR_DEV_BUSY: int := -304
  const R_ERR_OUT_OF_MEM: int := -305
  const W_ERR_PORT_NOT_OPEN: int := -401
  const W_ERR_INVALID_BUFFER: int := -402
  const W_ERR_INVALID_BUF_LEN: int := -403
  const W_ERR_DEV_BUSY: int := -404
  const W_ERR_OUT_OF_MEM: int := -405

  const BAUD_RATES: seq<int> := [110, 150, 300, 600, 1200, 2400, 4800, 9600, 19200]

  /** sizeof(serial_supported_baud_rates): the loop over the rates counts its bytes, four to an entry. */
  const RATE_BYTES: nat := 36

  /** The search for the speed, as written; `beyond` is what lies behind the nine rates in memory. */
  method SpeedMatches(speed: int, beyond: seq<int>) returns (found: bool)
    requires |BAUD_RATES + beyond| == RATE_BYTES
    ensures found <==> speed in BAUD_RATES || speed in beyond
  {
    var words, i := BAUD_RATES + beyond, 0;
    while i < RATE_BYTES
      invariant i <= RATE_BYTES && speed !in words[..i]
    {
      if words[i] == speed {
        return true;
      }
      i := i + 1;
    }
    assert words[..i] == words;
    return false;
  }

  /** serial_input_interrupt; `b` is what the receive register holds. */
  method InputInterrupt(dcb: Dcb, b: byte, ghost d: Dev) returns (r: Dcb)
    requires Represents(dcb, d) && DevInv(d) && d.ops != []
    ensures Input(d, b).Some? && DevInv(Input(d, b).value) && Represents(r, Input(d, b).value)
    ensures r.iocbs.Keys == dcb.iocbs.Keys
  {
    hide Spells, WriteStream, ReadFraming, Fifo;
    InputKeeps(d, b);
    QueueEnds(dcb.iocbs, dcb.head, dcb.tail, d.ops);
    r := dcb.(received := dcb.received + [b]);
    if r.iocbs[r.head].write {
      r := r.(ring := r.ring[r.ringEnd := b]);
      if r.ringEnd == r.ringBegin {
        r := r.(ringBegin := r.ringBegin + 1);
        if r.ringBegin == |r.ring| {
          r := r.(ringBegin := 0);
        }
      }
      r := r.(ringEnd := r.ringEnd + 1);
      if r.ringEnd == |r.ring| {
        r := r.(ringEnd := 0);
      }
    } else if !r.event {
      var rq := r.iocbs[r.head];
      rq := rq.(buffer := rq.buffer[r.idx := b]);
      HeadRewritten(r.iocbs, r.head, r.tail, d.ops, rq);
      r := r.(iocbs := r.iocbs[r.head := rq]);
      r := r.(idx := r.idx + 1);
      if r.idx == rq.size || b == CR {
        r := r.(event := true);
      }
    }
  }

  /** serial_output_interrupt, also one that comes when the operation at the head is over or a READ */
  method OutputInterrupt(dcb: Dcb, ghost d: Dev) returns (r: Dcb)
    requires Represents(dcb, d) && DevInv(d) && d.ops != []
    ensures Output(d).Some? && DevInv(Output(d).value) && Represents(r, Output(d).value)
    ensures r.iocbs == dcb.iocbs
  {
    hide Spells, WriteStream, ReadFraming, Fifo;
    if d.txInt {
      OutputKeeps(d);
    }
    QueueEnds(dcb.iocbs, dcb.head, dcb.tail, d.ops);
    r := dcb;
    if !r.event {
      if r.iocbs[r.head].write {
        var rq := r.iocbs[r.head];
        r := r.(idx := r.idx + 1);
        if r.idx == rq.size {
          r := r.(event := true);
          r := r.(txInt := false);
        } else {
          var next := rq.buffer[r.idx];
          r := r.(sent := r.sent + [next]);
        }
      }
    }
  }

  /** A buffer whose first bytes have been replaced. */
  function Filled(taken: seq<byte>, buf: seq<byte>): seq<byte>
    requires |taken| <= |buf|
  {
    taken + buf[|taken|..]
  }

  /** The copy loop at the start of a READ, with its early exit at '\r'. */
  method CopyFromRing(ring: seq<byte>, start: nat, end: nat, rq: Op) returns (n: nat, buf: seq<byte>, begin: nat)
    requires start < |ring| && end <= |ring| && |rq.buf| == rq.size
    ensures n == |RingTake(ring, start, end, rq.size)|
    ensures buf == Filled(RingTake(ring, start, end, rq.size), rq.buf)
    ensures begin == RingBegin(ring, start, end, rq.size)
  {
    hide Filled, RingTake, RingBegin;
    n, buf, begin := 0, rq.buf, start;
    ghost var taken := [];
    FilledNone(rq.buf);
    while begin < end && n < rq.size
      invariant begin < |ring| && n == |taken| <= rq.size && |buf| == rq.size
      invariant buf == Filled(taken, rq.buf)
      invariant RingTake(ring, start, end, rq.size) == taken + RingTake(ring, begin, end, rq.size - n)
      invariant RingBegin(ring, start, end, rq.size) == RingBegin(ring, begin, end, rq.size - n)
      decreases rq.size - n
    {
      var b := ring[begin];
      FilledMore(taken, rq.buf, b);
      RingStep(taken, ring, begin, end, rq.size - n);
      buf := buf[n := b];
      taken := taken + [b];
      begin := begin + 1;
      if begin == |ring| {
        begin := 0;
      }
      n := n + 1;
      if b == CR {
        return;
      }
    }
    RingEnd(taken, ring, begin, end, rq.size - n);
  }

  lemma FilledNone(buf: seq<byte>)
    ensures Filled([], buf) == buf
  {
  }

  lemma FilledMore(taken: seq<byte>, buf: seq<byte>, b: byte)
    requires |taken| < |buf|
    ensures |Filled(taken, buf)| == |buf| && Filled(taken, buf)[|taken| := b] == Filled(taken + [b], buf)
  {
  }

  lemma RingStep(taken: seq<byte>, ring: seq<byte>, begin: nat, end: nat, room: nat)
    requires begin < end && begin < |ring| && 0 < room
    ensures var b, next := ring[begin], Wrap(begin + 1, |ring|);
            && taken + RingTake(ring, begin, end, room) ==
               taken + [b] + (if b == CR then [] else RingTake(ring, next, end, room - 1))
            && RingBegin(ring, begin, end, room) == if b == CR then next else RingBegin(ring, next, end, room - 1)
    ensures ring[begin] == CR ==> taken + RingTake(ring, begin, end, room) == taken + [ring[begin]]
  {
  }

  lemma RingEnd(taken: seq<byte>, ring: seq<byte>, begin: nat, end: nat, room: nat)
    requires begin >= end || room == 0
    ensures taken + RingTake(ring, begin, end, room) == taken && RingBegin(ring, begin, end, room) == begin
  {
  }

  /** The initial steps of the READ at the head. */
  method StartRead(dcb: Dcb, ghost d: Dev) returns (r: Dcb)
    requires Represents(dcb, d) && d.ops != [] && !d.ops[0].write && |d.ops[0].buf| == d.ops[0].size
    requires dcb.ringBegin < |dcb.ring| && dcb.ringEnd <= |dcb.ring|
    ensures StartHead(d).Some? && Represents(r, StartHead(d).value) && r.iocbs.Keys == dcb.iocbs.Keys
  {
    hide Spells, RingTake, RingBegin;
    QueueEnds(dcb.iocbs, dcb.head, dcb.tail, d.ops);
    var rq := dcb.iocbs[dcb.head];
    var n, filled, begin := CopyFromRing(dcb.ring, dcb.ringBegin, dcb.ringEnd, AsOp(rq));
    HeadRewritten(dcb.iocbs, dcb.head, dcb.tail, d.ops, rq.(buffer := filled));
    r := dcb.(iocbs := dcb.iocbs[dcb.head := rq.(buffer := filled)], ringBegin := begin);
    r := r.(idx := n);   // both ways out of the copy loop record the count and nothing else
  }

  /** The initial steps of the WRITE at the head. */
  method StartWrite(dcb: Dcb, ghost d: Dev) returns (r: Dcb)
    requires Represents(dcb, d) && d.ops != [] && d.ops[0].write && d.ops[0].buf != []
    ensures StartHead(d).Some? && Represents(r, StartHead(d).value) && r.iocbs == dcb.iocbs
  {
    hide Spells;
    QueueEnds(dcb.iocbs, dcb.head, dcb.tail, d.ops);
    r := dcb.(idx := 0);
    r := r.(sent := r.sent + [dcb.iocbs[dcb.head].buffer[0]]);
    r := r.(txInt := true);
  }

  /** The new block becomes head and tail of an idle device. */
  method QueueFirst(dcb: Dcb, block: Ptr, p: Ptr, buf: seq<byte>, write: bool, ghost d: Dev) returns (r: Dcb)
    requires Represents(dcb, d) && d.ops == [] && block != NULL
    ensures var op := Op(p, write, |buf|, buf);
            Represents(r, d.(ops := [op], accepted := d.accepted + [op], headStart := |d.received|))
    ensures r.iocbs.Keys == {block} && r.ring == dcb.ring
    ensures r.ringBegin == dcb.ringBegin && r.ringEnd == dcb.ringEnd
  {
    hide Spells;
    QueueEnds(dcb.iocbs, dcb.head, dcb.tail, d.ops);
    var iocb := Iocb(NULL, p, buf, |buf|, write);
    FirstBlock(block, iocb);
    r := dcb.(head := block);
    r := r.(tail := block);
    r := r.(iocbs := r.iocbs[block := iocb]);
    r := r.(accepted := r.accepted + [AsOp(iocb)], headStart := |r.received|);
  }

  /** The new block goes behind the tail of a busy device. */
  method QueueLast(dcb: Dcb, block: Ptr, p: Ptr, buf: seq<byte>, write: bool, ghost d: Dev) returns (r: Dcb)
    requires Represents(dcb, d) && d.ops != [] && block != NULL && block !in dcb.iocbs
    ensures var op := Op(p, write, |buf|, buf);
            Represents(r, d.(ops := d.ops + [op], accepted := d.accepted + [op]))
    ensures r.iocbs.Keys == dcb.iocbs.Keys + {block}
  {
    hide Spells;
    QueueEnds(dcb.iocbs, dcb.head, dcb.tail, d.ops);
    var iocb := Iocb(NULL, p, buf, |buf|, write);
    BlockAppended(dcb.iocbs, dcb.head, dcb.tail, d.ops, block, iocb);
    r := dcb.(iocbs := dcb.iocbs[block := iocb]);
    r := r.(iocbs := r.iocbs[r.tail := r.iocbs[r.tail].(next := block)]);
    r := r.(tail := block);
    r := r.(accepted := r.accepted + [AsOp(iocb)]);
  }

  /** serial_read, on the device that `port` selects; `block` is what the allocator gives, NULL when it fails. */
  method SerialRead(dcb: Dcb, port: int, p: Ptr, addr: nat, buf: seq<byte>, block: Ptr, ghost d: Dev)
    returns (ret: int, r: Dcb)
    requires Represents(dcb, d) && DevInv(d)
    ensures ret == if addr == 0 then -302
                   else if buf == [] then -303
                   else if DevNo(port) == -1 then -1
                   else if !d.open then -301
                   else if d.ops != [] then -304
                   else if block == NULL then -305
                   else 0
    ensures ret != 0 ==> r == dcb
    ensures ret == 0 ==> var op := Op(p, false, |buf|, buf); Accept(d, op).Some? && Represents(r, Accept(d, op).value)
  {
    hide Represents, WriteStream, ReadFraming, Fifo;
    HeadOfQueue(dcb, d);
    r := dcb;
    if addr == 0 {
      return R_ERR_INVALID_BUFFER, r;
    }
    if |buf| == 0 {
      return R_ERR_INVALID_BUF_LEN, r;
    }
    if DevNo(port) == -1 {
      return ERR_DEV_NOT_FOUND, r;
    }
    if !dcb.open {
      return R_ERR_PORT_NOT_OPEN, r;
    }
    if dcb.head != NULL {
      return R_ERR_DEV_BUSY, r;
    }
    if block == NULL {
      return R_ERR_OUT_OF_MEM, r;
    }
    ghost var op := Op(p, false, |buf|, buf);
    assert d.ops + [op] == [op];
    RingOf(dcb, d);
    r := QueueFirst(dcb, block, p, buf, false, d);
    r := StartRead(r, d.(ops := [op], accepted := d.accepted + [op], headStart := |d.received|));
    return 0, r;
  }

  /** serial_write, on the device that `port` selects */
  method SerialWrite(dcb: Dcb, port: int, p: Ptr, addr: nat, buf: seq<byte>, block: Ptr, ghost d: Dev)
    returns (ret: int, r: Dcb)
    requires Represents(dcb, d) && DevInv(d)
    ensures ret == if addr == 0 then -402
                   else if buf == [] then -403
                   else if DevNo(port) == -1 then -1
                   else if !d.open then -401
                   else if d.ops != [] then -404
                   else if block == NULL then -405
                   else 0
    ensures ret != 0 ==> r == dcb
    ensures ret == 0 ==> var op := Op(p, true, |buf|, buf); Accept(d, op).Some? && Represents(r, Accept(d, op).value)
  {
    hide Represents, WriteStream, ReadFraming, Fifo;
    HeadOfQueue(dcb, d);
    r := dcb;
    if addr == 0 {
      return W_ERR_INVALID_BUFFER, r;
    }
    if |buf| == 0 {
      return W_ERR_INVALID_BUF_LEN, r;
    }
    if DevNo(port) == -1 {
      return ERR_DEV_NOT_FOUND, r;
    }
    if !dcb.open {
      return W_ERR_PORT_NOT_OPEN, r;
    }
    if dcb.head != NULL {
      return W_ERR_DEV_BUSY, r;
    }
    if block == NULL {
      return W_ERR_OUT_OF_MEM, r;
    }
    ghost var op := Op(p, true, |buf|, buf);
    assert d.ops + [op] == [op];
    r := QueueFirst(dcb, block, p, buf, true, d);
    r := StartWrite(r, d.(ops := [op], accepted := d.accepted + [op], headStart := |d.received|));
    return 0, r;
  }

  /** The finished operation at the head is freed and its successor, if any, becomes the head. */
  method FreeHead(dcb: Dcb, ghost d: Dev) returns (r: Dcb, prevWrite: bool)
    requires Represents(dcb, d) && d.ops != []
    ensures Represents(r, d.(event := false, ops := d.ops[1..], headStart := |d.received|,
                             done := d.done + [Done(d.ops[0], d.idx, d.headStart)]))
    ensures prevWrite == d.ops[0].write && r.iocbs.Keys == dcb.iocbs.Keys - {dcb.head}
    ensures r.ring == dcb.ring && r.ringBegin == dcb.ringBegin && r.ringEnd == dcb.ringEnd
  {
    hide Spells;
    QueueEnds(dcb.iocbs, dcb.head, dcb.tail, d.ops);
    HeadFreed(dcb.iocbs, dcb.head, dcb.tail, d.ops);
    r := dcb.(event := false);
    var finished := r.iocbs[r.head];
    var next := finished.next;
    prevWrite := finished.write;
    r := r.(done := r.done + [Done(AsOp(finished), r.idx, r.headStart)], headStart := |r.received|);
    r := r.(iocbs := r.iocbs - {r.head});
    if r.head == r.tail {
      r := r.(tail := next);
    }
    r := r.(head := next);
  }

  /** The device's half of serial_check_io: free the finished operation and start the next one. */
  method FinishOperation(dcb: Dcb, ghost d: Dev) returns (r: Dcb)
    requires Represents(dcb, d) && DevInv(d) && d.event
    ensures Retire(d).Some? && DevInv(Retire(d).value) && Represents(r, Retire(d).value)
    ensures r.iocbs.Keys == dcb.iocbs.Keys - {dcb.head}
  {
    hide Represents, WriteStream, ReadFraming, Fifo, RingTake, RingBegin;
    RetireKeeps(d);
    var prevWrite;
    r, prevWrite := FreeHead(dcb, d);
    ghost var d1 := d.(event := false, ops := d.ops[1..], headStart := |d.received|,
                       done := d.done + [Done(d.ops[0], d.idx, d.headStart)]);
    HeadOfQueue(r, d1);
    if r.head != NULL {
      assert d1.ops[0] == d.ops[1];
      var nextWrite := r.iocbs[r.head].write;
      if nextWrite != prevWrite {
        if prevWrite {
          SetTxInt(r, d1, false);
          r := r.(txInt := false);
          d1 := d1.(txInt := false);
        }
      }
      if nextWrite {
        r := StartWrite(r, d1);
      } else {
        RingOf(r, d1);
        r := StartRead(r, d1);
      }
    }
  }

  /** What the control block shows of its device. */
  lemma HeadOfQueue(c: Dcb, d: Dev)
    requires Represents(c, d)
    ensures c.open == d.open && c.event == d.event && c.idx == d.idx && c.txInt == d.txInt
    ensures (c.head == NULL <==> d.ops == []) && (c.tail == NULL <==> d.ops == [])
    ensures d.ops != [] ==> c.head in c.iocbs && AsOp(c.iocbs[c.head]) == d.ops[0]
  {
    QueueEnds(c.iocbs, c.head, c.tail, d.ops);
  }

  lemma RingOf(c: Dcb, d: Dev)
    requires Represents(c, d)
    ensures c.ring == d.ring && c.ringBegin == d.ringBegin && c.ringEnd == d.ringEnd
  {
  }

  lemma SetTxInt(c: Dcb, d: Dev, on: bool)
    requires Represents(c, d)
    ensures Represents(c.(txInt := on), d.(txInt := on))
  {
  }
}
