/**
 Device control blocks and their linked queues of I/O control blocks (include/mpx/device.h). `iocbs` is the
 memory of the queued blocks, so `iocbs[p].next` is `p->p_next`; `sent` and what follows it record history.
 */
module ControlBlocks {
  import opened Common
  import opened PcbQueues
  import opened PcbMemory
  import opened Devices

  datatype Iocb = Iocb(next: Ptr, rq: Ptr, buffer: seq<byte>, size: nat, write: bool)

  type Iocbs = map<Ptr, Iocb>

  datatype Dcb = Dcb(
    open: bool,
    head: Ptr,               // iocb_queue_head
    tail: Ptr,               // iocb_queue_tail
    iocbs: Iocbs,
    idx: nat,
    event: bool,
    txInt: bool,
    ring: seq<byte>,
    ringBegin: nat,
    ringEnd: nat,
    sent: seq<byte>,
    received: seq<byte>,
    headStart: nat,
    accepted: seq<Op>,
    done: seq<Done>)

  function AsOp(b: Iocb): Op {
    Op(b.rq, b.write, b.size, b.buffer)
  }

  /** The blocks at `ps` are linked in that order, ask for `ops`, and are all there are. */
  ghost predicate Chain(m: Iocbs, head: Ptr, tail: Ptr, ps: seq<Ptr>, ops: seq<Op>) {
    && |ps| == |ops| && Distinct(ps)
    && head == NodeAt(ps, 0) && tail == NodeAt(ps, |ps| - 1)
    && (forall p :: p in m <==> p in ps)
    && (forall i :: 0 <= i < |ps| ==> IsIocb(m, ps, ops, i))
  }

  ghost predicate IsIocb(m: Iocbs, ps: seq<Ptr>, ops: seq<Op>, i: nat)
    requires i < |ps| == |ops|
  {
    ps[i] != NULL && ps[i] in m && AsOp(m[ps[i]]) == ops[i] && m[ps[i]].next == NodeAt(ps, i + 1)
  }

  /** Head, tail and links spell out the requests `ops`. */
  ghost predicate Spells(m: Iocbs, head: Ptr, tail: Ptr, ops: seq<Op>) {
    exists ps :: Chain(m, head, tail, ps, ops)
  }

  function View(c: Dcb, ops: seq<Op>): Dev {
    Dev(c.open, ops, c.idx, c.event, c.txInt, c.ring, c.ringBegin, c.ringEnd,
        c.sent, c.received, c.headStart, c.accepted, c.done)
  }

  ghost predicate Represents(c: Dcb, d: Dev) {
    d == View(c, d.ops) && Spells(c.iocbs, c.head, c.tail, d.ops)
  }

  /** Head and tail are NULL together, exactly when nothing is queued. */
  lemma QueueEnds(m: Iocbs, head: Ptr, tail: Ptr, ops: seq<Op>)
    requires Spells(m, head, tail, ops)
    ensures (head == NULL <==> ops == []) && (tail == NULL <==> ops == [])
    ensures ops == [] ==> m == map[]
    ensures ops != [] ==> head in m && AsOp(m[head]) == ops[0] && tail in m && (head == tail <==> |ops| == 1)
  {
    var ps :| Chain(m, head, tail, ps, ops);
    if ops != [] {
      assert IsIocb(m, ps, ops, 0) && IsIocb(m, ps, ops, |ps| - 1);
      assert ps[0] in ps && ps[|ps| - 1] in ps;
    }
  }

  /** A first block in an empty queue. */
  lemma FirstBlock(p: Ptr, b: Iocb)
    requires p != NULL && b.next == NULL
    ensures Spells(map[p := b], p, p, [AsOp(b)])
  {
    var m, ps, ops := map[p := b], [p], [AsOp(b)];
    assert IsIocb(m, ps, ops, 0);
    assert Chain(m, p, p, ps, ops);
  }

  /** One more block behind the tail. */
  lemma BlockAppended(m: Iocbs, head: Ptr, tail: Ptr, ops: seq<Op>, p: Ptr, b: Iocb)
    requires Spells(m, head, tail, ops) && ops != [] && p != NULL && p !in m && b.next == NULL
    ensures tail in m
    ensures Spells(m[p := b][tail := m[tail].(next := p)], head, p, ops + [AsOp(b)])
  {
    var ps :| Chain(m, head, tail, ps, ops);
    var n := |ps|;
    assert IsIocb(m, ps, ops, n - 1);
    var m', ps', ops' := m[p := b][tail := m[tail].(next := p)], ps + [p], ops + [AsOp(b)];
    forall i | 0 <= i < n + 1 ensures IsIocb(m', ps', ops', i) {
      if i < n {
        assert IsIocb(m, ps, ops, i) && ps[i] in ps;
        assert ps[i] == tail ==> i == n - 1;
      }
    }
    assert Chain(m', head, p, ps', ops');
  }

  /** The head is freed. */
  lemma HeadFreed(m: Iocbs, head: Ptr, tail: Ptr, ops: seq<Op>)
    requires Spells(m, head, tail, ops) && ops != []
    ensures head in m
    ensures var next := m[head].next;
            && Spells(m - {head}, next, if head == tail then next else tail, ops[1..])
            && (next == NULL <==> |ops| == 1)
            && (next != NULL ==> next in m && next != head && AsOp(m[next]) == ops[1])
  {
    var ps :| Chain(m, head, tail, ps, ops);
    assert IsIocb(m, ps, ops, 0);
    var m', ps', ops' := m - {head}, ps[1..], ops[1..];
    forall i | 0 <= i < |ps'| ensures IsIocb(m', ps', ops', i) {
      assert IsIocb(m, ps, ops, i + 1);
    }
    forall p ensures p in m' <==> p in ps' {
      assert p in ps <==> p == ps[0] || p in ps';
    }
    if |ps| > 1 {
      assert IsIocb(m, ps, ops, 1);
    }
    var next := m[head].next;
    assert Chain(m', next, if head == tail then next else tail, ps', ops');
  }

  /** A byte is stored in the buffer of the head. */
  lemma HeadRewritten(m: Iocbs, head: Ptr, tail: Ptr, ops: seq<Op>, b: Iocb)
    requires Spells(m, head, tail, ops) && ops != [] && head in m && b.next == m[head].next
    ensures Spells(m[head := b], head, tail, ops[0 := AsOp(b)])
  {
    var ps :| Chain(m, head, tail, ps, ops);
    var m', ops' := m[head := b], ops[0 := AsOp(b)];
    forall i | 0 <= i < |ps| ensures IsIocb(m', ps, ops', i) {
      assert IsIocb(m, ps, ops, i);
    }
    assert Chain(m', head, tail, ps, ops');
  }
}
