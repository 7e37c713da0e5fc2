/**
 The kernel's scheduling state in memory: PCBs and their four linked queues, the running process and
 the device control blocks (kernel/sys_call.c, kernel/serial.c:507-691).

 `sys` is the abstract state. Mirrors() ties it to memory, and every method is proved to do to `sys`
 exactly what Scheduler says.
 */
module KernelState {
  import opened Common
  import opened PcbQueues
  import opened PcbMemory
  import opened Devices
  import opened ControlBlocks
  import opened SerialDriver
  import opened Scheduler
  import opened SchedulerInv
  import opened SchedulerRuns

  predicate InSomeQueue(s: Sys, p: Ptr) {
    p in s.queues[0] || p in s.queues[1] || p in s.queues[2] || p in s.queues[3]
  }

  /** A PCB is in one queue at most. */
  ghost predicate Apart(s: Sys) {
    forall k, l, p :: 0 <= k < 4 && 0 <= l < 4 && k != l && p in s.queues[k] ==> p !in s.queues[l]
  }

  /** The memory holds the abstract processes, and the links spell out the abstract queues. */
  ghost predicate Holds(mem: Memory, queue: seq<QueueRec>, s: Sys) {
    && |queue| == 4 && Apart(s)
    && (forall k: nat :: k < 4 ==> Linked(mem, queue[k], s.queues[k]))
    && HoldsProcs(mem, s)
    && (forall p :: p in mem && !InSomeQueue(s, p) ==> mem[p].next == NULL)
  }

  /** Every process has the name that it was created with. */
  ghost predicate Named(mem: Memory, names: map<Ptr, string>) {
    forall p :: p in mem ==> p in names && mem[p].name == names[p]
  }

  lemma SameNames(mem: Memory, mem': Memory, names: map<Ptr, string>)
    requires Named(mem, names)
    requires mem'.Keys <= mem.Keys && forall p :: p in mem' ==> mem'[p].name == mem[p].name
    ensures Named(mem', names)
  {
  }

  lemma NamedNew(mem: Memory, names: map<Ptr, string>, p: Ptr, rec: PcbRec)
    requires Named(mem, names)
    ensures Named(mem[p := rec], names[p := rec.name])
  {
  }

  lemma ProcHeld(mem: Memory, queue: seq<QueueRec>, s: Sys, p: Ptr)
    requires Holds(mem, queue, s) && p in mem
    ensures p in s.procs && s.procs[p] == Proc(mem[p].state, mem[p].ctxt)
  {
  }

  lemma AssignNamed(mem: Memory, names: map<Ptr, string>, p: Ptr, state: PcbState, ctxt: Context)
    requires Named(mem, names) && p in mem
    ensures Named(mem[p := mem[p].(state := state, ctxt := ctxt)], names)
  {
  }

  ghost predicate HoldsProcs(mem: Memory, s: Sys) {
    && mem.Keys == s.procs.Keys && NULL !in mem
    && (forall p :: p in mem ==> Proc(mem[p].state, mem[p].ctxt) == s.procs[p])
  }

  lemma EntryAgrees(mem: Memory, s: Sys, p: Ptr)
    requires HoldsProcs(mem, s) && p in mem
    ensures Selector(mem[p].state) == QueueOf(s.procs, p)
    ensures var k := QueueOf(s.procs, p);
            EntryPoint(mem, s.queues[k], IsPriorityQueue(k), p) == EntryIndex(s, p)
  {
    var q := s.queues[QueueOf(s.procs, p)];
    forall x | x in mem ensures PriAt(mem, x) == ProcOf(s.procs, x).state.pri {
      assert Proc(mem[x].state, mem[x].ctxt) == s.procs[x];
    }
    forall i | 0 <= i < |q| ensures Priorities(mem, q)[i] == Pris(s.procs, q)[i] {
      assert q[i] in mem <==> q[i] in s.procs;
    }
    assert Priorities(mem, q) == Pris(s.procs, q);
  }

  lemma RelinkedHoldsProcs(mem: Memory, mem': Memory, s: Sys, q: seq<Ptr>, p: Ptr)
    requires HoldsProcs(mem, s) && Relinked(mem, mem', q, p)
    ensures HoldsProcs(mem', s)
  {
  }

  /** Relinking one queue leaves the other three alone. */
  lemma OthersHold(mem: Memory, mem': Memory, queue: seq<QueueRec>, s: Sys, k: nat, l: nat, p: Ptr)
    requires Holds(mem, queue, s) && k < 4 && l < 4 && k != l && p !in s.queues[l]
    requires Relinked(mem, mem', s.queues[k], p)
    ensures Linked(mem', queue[l], s.queues[l])
  {
    HeadAndNext(mem, queue[l], s.queues[l]);
    LinkedElsewhere(mem, mem', queue[l], s.queues[l]);
  }

  /** Membership after pcb_insert. */
  lemma EnqueueMembers(s: Sys, p: Ptr)
    ensures forall k, x :: 0 <= k < 4 ==>
              (x in Enqueue(s, p).queues[k] <==> x in s.queues[k] || (k == QueueOf(s.procs, p) && x == p))
  {
    InsertMembers(s.queues[QueueOf(s.procs, p)], EntryIndex(s, p), p);
    hide InsertAt;
  }

  /** Membership after a pcb_remove that finds its PCB. */
  lemma DetachMembers(s: Sys, p: Ptr)
    requires InAQueue(s, p) && Distinct(s.queues[QueueOf(s.procs, p)])
    ensures forall k, x :: 0 <= k < 4 ==>
              (x in Detach(s, p).queues[k] <==> x in s.queues[k] && !(k == QueueOf(s.procs, p) && x == p))
  {
    var q := s.queues[QueueOf(s.procs, p)];
    RemoveAtMembers(q, IndexOf(q, p));
    hide RemoveAt;
  }

  /** Relinking queue `k` on account of `p` leaves the other three queues linked as they were. */
  lemma QueuesHold(mem: Memory, mem': Memory, queue: seq<QueueRec>, q': QueueRec, s: Sys, s': Sys, k: nat, p: Ptr)
    requires Holds(mem, queue, s) && k < 4 && s'.queues == s.queues[k := s'.queues[k]]
    requires Linked(mem', q', s'.queues[k]) && Relinked(mem, mem', s.queues[k], p)
    requires forall l :: 0 <= l < 4 && l != k ==> p !in s.queues[l]
    ensures forall l: nat :: l < 4 ==> Linked(mem', queue[k := q'][l], s'.queues[l])
  {
    hide Linked, Relinked;
    forall l: nat | l < 4 ensures Linked(mem', queue[k := q'][l], s'.queues[l]) {
      if l != k {
        OthersHold(mem, mem', queue, s, k, l, p);
        assert s'.queues[l] == s.queues[l];
      }
    }
  }

  lemma EnqueueHolds(mem: Memory, mem': Memory, queue: seq<QueueRec>, q': QueueRec, s: Sys, p: Ptr)
    requires Holds(mem, queue, s) && p in mem && !InSomeQueue(s, p)
    requires var k := QueueOf(s.procs, p);
             && Linked(mem', q', InsertAt(s.queues[k], EntryIndex(s, p), p))
             && Relinked(mem, mem', s.queues[k], p)
    ensures Holds(mem', queue[QueueOf(s.procs, p) := q'], Enqueue(s, p))
  {
    hide Enqueue, Linked, InsertAt, EntryIndex, HoldsProcs, QueueOf;
    var k, s' := QueueOf(s.procs, p), Enqueue(s, p);
    EnqueueShape(s, p);
    RelinkedHoldsProcs(mem, mem', s, s.queues[k], p);
    EnqueueMembers(s, p);
    QueuesHold(mem, mem', queue, q', s, s', k, p);
    HoldsProcsSame(mem', s, s');
    EnqueueLeaves(mem, mem', queue, s, p);
  }

  lemma EnqueueShape(s: Sys, p: Ptr)
    ensures var k := QueueOf(s.procs, p);
            Enqueue(s, p) == s.(queues := s.queues[k := InsertAt(s.queues[k], EntryIndex(s, p), p)])
  {
  }

  /** A PCB that is in no queue after pcb_insert was in none before, and keeps its NULL link. */
  lemma EnqueueLeaves(mem: Memory, mem': Memory, queue: seq<QueueRec>, s: Sys, p: Ptr)
    requires Holds(mem, queue, s) && Relinked(mem, mem', s.queues[QueueOf(s.procs, p)], p)
    ensures forall x :: x in mem' && !InSomeQueue(Enqueue(s, p), x) ==> mem'[x].next == NULL
  {
    hide Enqueue, Linked, HoldsProcs;
    EnqueueMembers(s, p);
    var k, s' := QueueOf(s.procs, p), Enqueue(s, p);
    forall x | x in mem' && !InSomeQueue(s', x) ensures mem'[x].next == NULL {
      assert x !in s.queues[k] && x != p && !InSomeQueue(s, x);
    }
  }

  lemma HoldsProcsSame(mem: Memory, s: Sys, s': Sys)
    requires HoldsProcs(mem, s) && s'.procs == s.procs
    ensures HoldsProcs(mem, s')
  {
  }

  lemma InsertMembers(q: seq<Ptr>, i: nat, p: Ptr)
    requires i <= |q|
    ensures forall x :: x in InsertAt(q, i, p) <==> x in q || x == p
  {
    var r := InsertAt(q, i, p);
    assert r[i] == p;
    forall x | x in q ensures x in r {
      var j := IndexOf(q, x);
      assert x == if j < i then r[j] else r[j + 1];
    }
  }

  lemma DetachHolds(mem: Memory, mem': Memory, queue: seq<QueueRec>, q': QueueRec, s: Sys, p: Ptr)
    requires Holds(mem, queue, s) && InAQueue(s, p) && p in mem' && mem'[p].next == NULL
    requires var k := QueueOf(s.procs, p);
             && Linked(mem', q', RemoveAt(s.queues[k], IndexOf(s.queues[k], p)))
             && Relinked(mem, mem', s.queues[k], p)
    ensures Holds(mem', queue[QueueOf(s.procs, p) := q'], Detach(s, p))
    ensures !InSomeQueue(Detach(s, p), p)
  {
    hide Detach, Linked, RemoveAt, IndexOf, HoldsProcs, QueueOf;
    var k, s' := QueueOf(s.procs, p), Detach(s, p);
    DetachShape(s, p);
    RelinkedHoldsProcs(mem, mem', s, s.queues[k], p);
    NoRepeats(mem, queue[k], s.queues[k]);
    DetachMembers(s, p);
    QueuesHold(mem, mem', queue, q', s, s', k, p);
    HoldsProcsSame(mem', s, s');
    DetachLeaves(mem, mem', queue, s, p);
  }

  lemma DetachShape(s: Sys, p: Ptr)
    requires InAQueue(s, p)
    ensures var k := QueueOf(s.procs, p);
            Detach(s, p) == s.(queues := s.queues[k := RemoveAt(s.queues[k], IndexOf(s.queues[k], p))])
  {
  }

  lemma NoRepeats(mem: Memory, q: QueueRec, s: seq<Ptr>)
    requires Linked(mem, q, s)
    ensures Distinct(s)
  {
  }

  /** The PCB that pcb_remove took out has a NULL link now; the others in no queue kept theirs. */
  lemma DetachLeaves(mem: Memory, mem': Memory, queue: seq<QueueRec>, s: Sys, p: Ptr)
    requires Holds(mem, queue, s) && Relinked(mem, mem', s.queues[QueueOf(s.procs, p)], p)
    requires InAQueue(s, p) && Distinct(s.queues[QueueOf(s.procs, p)]) && p in mem' && mem'[p].next == NULL
    ensures forall x :: x in mem' && !InSomeQueue(Detach(s, p), x) ==> mem'[x].next == NULL
  {
    hide Detach, Linked, HoldsProcs, Distinct;
    DetachMembers(s, p);
    var k, s' := QueueOf(s.procs, p), Detach(s, p);
    forall x | x in mem' && !InSomeQueue(s', x) ensures mem'[x].next == NULL {
      assert x == p || (!InSomeQueue(s, x) && x !in s.queues[k]);
    }
  }

  /** pcb_insert into the queue that the state of `p` selects. */
  method InsertPcb(mem: Memory, queue: seq<QueueRec>, p: Ptr, ghost s: Sys)
    returns (mem': Memory, queue': seq<QueueRec>)
    requires Holds(mem, queue, s) && p in mem && !InSomeQueue(s, p)
    ensures Holds(mem', queue', Enqueue(s, p)) && mem'.Keys == mem.Keys
    ensures forall x :: x in mem ==> mem'[x].name == mem[x].name
  {
    EntryAgrees(mem, s, p);
    var k := Selector(mem[p].state);
    var q;
    mem', q := Insert(mem, queue[k], IsPriorityQueue(k), p, s.queues[k]);
    EnqueueHolds(mem, mem', queue, q, s, p);
    hide Holds, Enqueue;
    queue' := queue[k := q];
  }

  /** pcb_remove from the queue that the state of `p` selects. */
  method RemovePcb(mem: Memory, queue: seq<QueueRec>, p: Ptr, ghost s: Sys)
    returns (rc: int, mem': Memory, queue': seq<QueueRec>)
    requires Holds(mem, queue, s) && p in mem
    ensures Holds(mem', queue', Detach(s, p)) && mem'.Keys == mem.Keys
    ensures rc == if InAQueue(s, p) then 0 else -1
    ensures rc == 0 ==> !InSomeQueue(Detach(s, p), p)
    ensures forall x :: x in mem ==> mem'[x].name == mem[x].name
  {
    EntryAgrees(mem, s, p);
    var k := Selector(mem[p].state);
    var q;
    rc, mem', q := Remove(mem, queue[k], p, s.queues[k]);
    if rc == 0 {
      DetachHolds(mem, mem', queue, q, s, p);
      hide Holds, Detach;
      queue' := queue[k := q];
    } else {
      DetachMiss(s, p);
      mem', queue' := mem, queue;
    }
  }

  lemma DetachMiss(s: Sys, p: Ptr)
    requires p !in s.queues[QueueOf(s.procs, p)]
    ensures Detach(s, p) == s
  {
  }

  /** Assigning the state or the context of a PCB touches no link. */
  lemma AssignHolds(mem: Memory, queue: seq<QueueRec>, s: Sys, p: Ptr, state: PcbState, ctxt: Context)
    requires Holds(mem, queue, s) && p in mem
    ensures Holds(mem[p := mem[p].(state := state, ctxt := ctxt)], queue,
                  s.(procs := s.procs[p := Proc(state, ctxt)]))
  {
    var mem' := mem[p := mem[p].(state := state, ctxt := ctxt)];
    forall k: nat | k < 4 ensures Linked(mem', queue[k], s.queues[k]) {
      HeadAndNext(mem, queue[k], s.queues[k]);
      LinkedElsewhere(mem, mem', queue[k], s.queues[k]);
    }
    hide Linked;
  }

  lemma HoldsSame(mem: Memory, queue: seq<QueueRec>, s: Sys, s': Sys)
    requires Holds(mem, queue, s) && s'.queues == s.queues && s'.procs == s.procs
    ensures Holds(mem, queue, s')
  {
    hide Linked;
  }

  lemma BlockedIsQueued(s: Sys, p: Ptr)
    requires Core(s) && IsBlocked(s, p)
    ensures InAQueue(s, p)
  {
  }

  /** `p` is the first PCB of that name in the queue. */
  predicate FirstNamed(mem: Memory, q: seq<Ptr>, name: string, p: Ptr) {
    && p in q && p in mem && mem[p].name == name
    && forall i :: 0 <= i < IndexOf(q, p) ==> q[i] in mem && mem[q[i]].name != name
  }

  /** `p` is the first PCB of that name in queue `k`, and no queue before that has one. */
  predicate FirstFound(mem: Memory, queues: Queues, name: string, p: Ptr, k: nat) {
    && k < 4 && FirstNamed(mem, queues[k], name, p)
    && forall l, x :: 0 <= l < k && x in queues[l] ==> x in mem && mem[x].name != name
  }

  /** The walk of pcb_find along one queue. */
  method FindIn(mem: Memory, queue: QueueRec, name: string, ghost q: seq<Ptr>) returns (p: Ptr)
    requires Linked(mem, queue, q)
    ensures p != NULL ==> FirstNamed(mem, q, name, p)
    ensures p == NULL ==> forall x :: x in q ==> x in mem && mem[x].name != name
  {
    hide Linked;
    NodeFacts(mem, queue, q, 0);
    p := queue.head;
    ghost var j := 0;
    while p != NULL
      invariant j <= |q| && p == NodeAt(q, j)
      invariant forall l :: 0 <= l < j ==> q[l] in mem && mem[q[l]].name != name
      decreases |q| - j
    {
      NodeFacts(mem, queue, q, j);
      if name == mem[p].name {
        FirstAt(q, p, j);
        return;
      }
      p := mem[p].next;
      j := j + 1;
    }
    NodeFacts(mem, queue, q, j);
  }

  /** The loop of pcb_find over the four queues. */
  method FindQueued(mem: Memory, queue: seq<QueueRec>, name: string, ghost queues: Queues) returns (p: Ptr)
    requires |queue| == 4 && forall k: nat :: k < 4 ==> Linked(mem, queue[k], queues[k])
    ensures p != NULL ==> exists k: nat :: FirstFound(mem, queues, name, p, k)
    ensures p == NULL ==> forall k, x :: 0 <= k < 4 && x in queues[k] ==> x in mem && mem[x].name != name
  {
    hide Linked, FirstNamed;
    var i := 0;
    while i < 4
      invariant i <= 4
      invariant forall k, x :: 0 <= k < i && x in queues[k] ==> x in mem && mem[x].name != name
    {
      p := FindIn(mem, queue[i], name, queues[i]);
      if p != NULL {
        assert FirstFound(mem, queues, name, p, i);
        return;
      }
      i := i + 1;
    }
    p := NULL;
  }

  /** Each control block represents its device. */
  ghost predicate Controls(dcb: seq<Dcb>, devs: Devs) {
    |dcb| == 4 && forall k :: 0 <= k < 4 ==> Represents(dcb[k], devs[k])
  }

  lemma ControlOf(dcb: seq<Dcb>, devs: Devs, d: nat)
    requires Controls(dcb, devs) && d < 4
    ensures |dcb| == 4 && Represents(dcb[d], devs[d])
    ensures dcb[d].open == devs[d].open && dcb[d].event == devs[d].event && dcb[d].idx == devs[d].idx
    ensures dcb[d].head == NULL <==> devs[d].ops == []
    ensures devs[d].ops != [] ==> dcb[d].head in dcb[d].iocbs && AsOp(dcb[d].iocbs[dcb[d].head]) == devs[d].ops[0]
  {
    HeadOfQueue(dcb[d], devs[d]);
  }

  lemma ControlSet(dcb: seq<Dcb>, devs: Devs, d: nat, c: Dcb, dev: Dev)
    requires Controls(dcb, devs) && d < 4 && Represents(c, dev)
    ensures Controls(dcb[d := c], devs[d := dev])
  {
    hide Represents;
  }

  /** The blocks of a device that the next check of its port does not free. */
  function Kept(c: Dcb): set<Ptr> {
    c.iocbs.Keys - if c.event then {c.head} else {}
  }

  /** The allocator gives a block that no device will be using once the finished operations are freed. */
  predicate Available(dcb: seq<Dcb>, block: Ptr) {
    forall k :: 0 <= k < |dcb| ==> block !in Kept(dcb[k])
  }

  /** The port address names a device that is open, or closed. */
  predicate NamesPort(devs: Devs, port: int, open: bool) {
    exists d :: 0 <= d < 4 && OnPort(port, d) && devs[d].open == open
  }

  /** Which result serial_schedule_io gives when. */
  predicate Answers(ret: int, devs: Devs, port: int, addr: nat, size: nat, block: Ptr) {
    && (ret == -502 <==> addr == 0)
    && (ret == -503 <==> addr != 0 && size == 0)
    && (ret == -500 <==> addr != 0 && 0 < size && !NamesPort(devs, port, false) && !NamesPort(devs, port, true))
    && (ret == -501 <==> addr != 0 && 0 < size && NamesPort(devs, port, false))
    && (ret == -505 <==> addr != 0 && 0 < size && NamesPort(devs, port, true) && block == NULL)
    && (ret == 0 <==> addr != 0 && 0 < size && NamesPort(devs, port, true) && block != NULL)
  }

  function ClosedDcb(): Dcb {
    Dcb(false, NULL, NULL, map[], 0, false, false, ZeroRing(), 0, 0, [], [], 0, [], [])
  }

  lemma ClosedControls()
    ensures Controls([ClosedDcb(), ClosedDcb(), ClosedDcb(), ClosedDcb()], INITIAL.devs)
  {
    var ps: seq<Ptr>, ops: seq<Op> := [], [];
    assert Chain(map[], NULL, NULL, ps, ops);
    assert Represents(ClosedDcb(), CLOSED_DEV);
    hide Represents;
  }

  lemma WakeDevices(s: Sys, p: Ptr, count: nat)
    ensures Wake(s, p, count).devs == s.devs
  {
  }

  lemma ClosedIsQuiet(dev: Dev)
    requires DevInv(dev)
    ensures dev.event ==> dev.open
  {
  }

  class Kernel {
    var pcb: Memory
    var queue: seq<QueueRec>       // pcb_queues
    var running: Ptr               // pcb_running
    var original: Option<Context>  // context_original
    var dcb: seq<Dcb>              // serial_dcb_list
    var waiting: bool              // inside the wait loop of READ or WRITE
    var fault: bool                // NULL was dereferenced
    ghost var sys: Sys
    ghost var names: map<Ptr, string>

    ghost predicate Mirrors()
      reads this
    {
      && Holds(pcb, queue, sys) && Named(pcb, names)
      && sys.running == running && sys.original == original && Controls(dcb, sys.devs)
      && sys.waiting == waiting && sys.fault == fault
    }

    ghost predicate Valid()
      reads this
    {
      Mirrors() && Inv(sys)
    }

    constructor ()
      ensures Valid() && sys == INITIAL
    {
      names := map[];
      pcb, queue := map[], [QueueRec(NULL, NULL), QueueRec(NULL, NULL), QueueRec(NULL, NULL), QueueRec(NULL, NULL)];
      running, original, waiting, fault := NULL, None, false, false;
      dcb := [ClosedDcb(), ClosedDcb(), ClosedDcb(), ClosedDcb()];
      sys := INITIAL;
      InitiallyInv();
      ClosedControls();
    }

    // -------------------------------------------------------------- single moves

    /** pcb_insert */
    method PcbInsert(p: Ptr)
      requires Mirrors() && p in pcb && !InSomeQueue(sys, p)
      modifies `pcb, `queue, `sys
      ensures Mirrors() && sys == Enqueue(old(sys), p) && pcb.Keys == old(pcb.Keys)
      ensures forall x :: x in pcb ==> pcb[x].name == old(pcb)[x].name
    {
      MovesShape(sys, p);
      hide Named, Holds, Enqueue;
      var mem, queue' := InsertPcb(pcb, queue, p, sys);
      SameNames(pcb, mem, names);
      pcb, queue, sys := mem, queue', Enqueue(sys, p);
    }

    /** pcb_remove */
    method PcbRemove(p: Ptr) returns (rc: int)
      requires Mirrors() && p in pcb
      modifies `pcb, `queue, `sys
      ensures Mirrors() && sys == Detach(old(sys), p) && pcb.Keys == old(pcb.Keys)
      ensures rc == if InAQueue(old(sys), p) then 0 else -1
      ensures rc == 0 ==> !InSomeQueue(sys, p)
    {
      MovesShape(sys, p);
      hide Named, Holds, Detach;
      var mem, queue';
      rc, mem, queue' := RemovePcb(pcb, queue, p, sys);
      SameNames(pcb, mem, names);
      pcb, queue, sys := mem, queue', Detach(sys, p);
    }

    method AssignExec(p: Ptr, exec: ExecState)
      requires Mirrors() && p in pcb
      modifies `pcb, `sys
      ensures Mirrors() && sys == SetExec(old(sys), p, exec) && pcb.Keys == old(pcb.Keys)
    {
      hide Holds, Named;
      ProcHeld(pcb, queue, sys, p);
      AssignHolds(pcb, queue, sys, p, pcb[p].state.(exec := exec), pcb[p].ctxt);
      AssignNamed(pcb, names, p, pcb[p].state.(exec := exec), pcb[p].ctxt);
      pcb := pcb[p := pcb[p].(state := pcb[p].state.(exec := exec))];
      sys := SetExec(sys, p, exec);
    }

    method AssignDispatch(p: Ptr, dispatch: DispatchState)
      requires Mirrors() && p in pcb
      modifies `pcb, `sys
      ensures Mirrors() && sys == SetDispatch(old(sys), p, dispatch) && pcb.Keys == old(pcb.Keys)
    {
      hide Holds, Named;
      ProcHeld(pcb, queue, sys, p);
      AssignHolds(pcb, queue, sys, p, pcb[p].state.(dispatch := dispatch), pcb[p].ctxt);
      AssignNamed(pcb, names, p, pcb[p].state.(dispatch := dispatch), pcb[p].ctxt);
      pcb := pcb[p := pcb[p].(state := pcb[p].state.(dispatch := dispatch))];
      sys := SetDispatch(sys, p, dispatch);
    }

    method AssignPri(p: Ptr, pri: nat)
      requires Mirrors() && p in pcb
      modifies `pcb, `sys
      ensures Mirrors() && sys == SetPri(old(sys), p, pri) && pcb.Keys == old(pcb.Keys)
    {
      hide Holds, Named;
      ProcHeld(pcb, queue, sys, p);
      AssignHolds(pcb, queue, sys, p, pcb[p].state.(pri := pri), pcb[p].ctxt);
      AssignNamed(pcb, names, p, pcb[p].state.(pri := pri), pcb[p].ctxt);
      pcb := pcb[p := pcb[p].(state := pcb[p].state.(pri := pri))];
      sys := SetPri(sys, p, pri);
    }

    method AssignContext(p: Ptr, ctxt: Context)
      requires Mirrors() && p in pcb
      modifies `pcb, `sys
      ensures Mirrors() && sys == SetContext(old(sys), p, ctxt) && pcb.Keys == old(pcb.Keys)
    {
      hide Holds, Named;
      ProcHeld(pcb, queue, sys, p);
      AssignHolds(pcb, queue, sys, p, pcb[p].state, ctxt);
      AssignNamed(pcb, names, p, pcb[p].state, ctxt);
      pcb := pcb[p := pcb[p].(ctxt := ctxt)];
      sys := SetContext(sys, p, ctxt);
    }

    /** The result register of a saved context. */
    method AssignEax(p: Ptr, eax: int)
      requires Mirrors() && p in pcb
      modifies `pcb, `sys
      ensures Mirrors() && sys == SetContext(old(sys), p, ProcOf(old(sys).procs, p).ctxt.(eax := eax))
      ensures pcb.Keys == old(pcb.Keys)
    {
      assert Proc(pcb[p].state, pcb[p].ctxt) == sys.procs[p];
      AssignContext(p, pcb[p].ctxt.(eax := eax));
    }

    // -------------------------------------------------------------- devices

    /** Makes a blocked PCB ready, with the byte count of its operation as the result of the call. */
    method WakeRequester(p: Ptr, count: nat)
      requires Mirrors() && p in pcb && InAQueue(sys, p)
      modifies `pcb, `queue, `sys
      ensures Mirrors() && sys == Wake(old(sys), p, count)
    {
      hide Named, Holds, Detach, Enqueue;
      var rc := PcbRemove(p);
      AssignExec(p, Ready);
      AssignEax(p, count);
      PcbInsert(p);
    }

    method AssignDevice(d: nat, c: Dcb, ghost dev: Dev)
      requires Mirrors() && d < 4 && Represents(c, dev)
      modifies `dcb, `sys
      ensures Mirrors() && sys == old(sys).(devs := old(sys).devs[d := dev])
      ensures |old(dcb)| == 4 && dcb == old(dcb)[d := c]
    {
      hide Named, Holds, Represents;
      ControlSet(dcb, sys.devs, d, c, dev);
      dcb := dcb[d := c];
      HoldsSame(pcb, queue, sys, sys.(devs := sys.devs[d := dev]));
      sys := sys.(devs := sys.devs[d := dev]);
    }

    /** serial_check_io */
    method CheckDevice(d: nat) returns (ready: bool)
      requires Mirrors() && Core(sys) && d < 4
      modifies `pcb, `queue, `dcb, `sys
      ensures Mirrors() && Core(sys) && (sys, ready) == CheckIo(old(sys), d)
      ensures |old(dcb)| == 4 && dcb == old(dcb)[d := dcb[d]] && dcb[d].iocbs.Keys == Kept(old(dcb)[d])
    {
      hide Named, DevInv, CheckIo, Retire, Wake, Controls, Represents, Holds, Queued, Ownership, InAQueue;
      CheckIoShape(sys, d);
      CheckIoKeeps(sys, d);
      DeviceOk(sys, d);
      ClosedIsQuiet(sys.devs[d]);
      HoldsKeys(pcb, queue, sys);
      ControlOf(dcb, sys.devs, d);
      ready := false;
      if dcb[d].open {
        if dcb[d].event {
          ghost var dev := sys.devs[d];
          var p := dcb[d].iocbs[dcb[d].head].rq;
          BlockedIsQueued(sys, p);
          WakeDevices(sys, p, dcb[d].idx);
          hide Core;
          WakeRequester(p, dcb[d].idx);
          var c := FinishOperation(dcb[d], dev);
          AssignDevice(d, c, Retire(dev).value);
          ready := true;
        }
      }
    }

    /** sys_check_io */
    method CheckDevices() returns (ready: bool)
      requires Mirrors() && Core(sys)
      modifies `pcb, `queue, `dcb, `sys
      ensures Mirrors() && Core(sys) && (sys, ready) == CheckAll(old(sys))
      ensures |old(dcb)| == |dcb| == 4 && forall k :: 0 <= k < 4 ==> dcb[k].iocbs.Keys == Kept(old(dcb)[k])
    {
      hide Named, Core, Holds, CheckUpTo, CheckIo, Represents, Kept;
      CheckUpToNone(sys);
      ready := false;
      var i := 0;
      while i < 4
        invariant i <= 4 && Mirrors() && Core(sys)
        invariant (sys, ready) == CheckUpTo(old(sys), i)
        invariant |old(dcb)| == |dcb| == 4 && forall k :: i <= k < 4 ==> dcb[k] == old(dcb)[k]
        invariant forall k :: 0 <= k < i ==> dcb[k].iocbs.Keys == Kept(old(dcb)[k])
      {
        CheckUpToUnfold(old(sys), i + 1);
        var r := CheckDevice(i);
        if r {
          ready := true;
        }
        i := i + 1;
      }
    }

    /** serial_schedule_io: result 0 exactly when the request was accepted. `block` is the allocator's answer. */
    method ScheduleIo(port: int, addr: nat, size: nat, data: seq<byte>, write: bool, block: Ptr) returns (ret: int)
      requires Mirrors() && DevicesOk(sys) && (addr != 0 ==> size <= |data|)
      requires forall k :: 0 <= k < |dcb| ==> block !in dcb[k].iocbs
      modifies `dcb, `sys
      ensures Mirrors()
      ensures Answers(ret, old(sys).devs, port, addr, size, block)
      ensures ret == ScheduleCode(old(sys).devs, Context(0, port, addr, size), block != NULL)
      ensures ret != 0 ==> sys == old(sys) && dcb == old(dcb)
      ensures ret == 0 ==>
                var d, op := DevNo(port), Op(running, write, size, data[..size]);
                && Accept(old(sys).devs[d], op).Some?
                && sys == old(sys).(devs := old(sys).devs[d := Accept(old(sys).devs[d], op).value])
    {
      hide Named, Holds, DevInv, Accept, Controls, Represents;
      if addr == 0 {
        return S_ERR_INVALID_BUFFER;
      }
      if size == 0 {
        return S_ERR_INVALID_BUF_LEN;
      }
      var d := DevNo(port);
      if d == -1 {
        return S_ERR_DEV_NOT_FOUND;
      }
      assert OnPort(port, d);
      ControlOf(dcb, sys.devs, d);
      if !dcb[d].open {
        return S_ERR_PORT_NOT_OPEN;
      }
      ghost var dev, op := sys.devs[d], Op(running, write, size, data[..size]);
      assert DevInv(dev);
      var c;
      if dcb[d].head == NULL {
        if write {
          ret, c := SerialWrite(dcb[d], port, running, addr, data[..size], block, dev);
          if ret != 0 {
            if ret == W_ERR_DEV_BUSY {
              return S_ERR_DEV_BUSY;
            }
            if ret == W_ERR_OUT_OF_MEM {
              return S_ERR_OUT_OF_MEM;
            }
          }
        } else {
          ret, c := SerialRead(dcb[d], port, running, addr, data[..size], block, dev);
          if ret != 0 {
            if ret == R_ERR_DEV_BUSY {
              return S_ERR_DEV_BUSY;
            }
            if ret == R_ERR_OUT_OF_MEM {
              return S_ERR_OUT_OF_MEM;
            }
          }
        }
      } else {
        if block == NULL {
          return S_ERR_OUT_OF_MEM;
        }
        AcceptBusy(dev, op);
        c := QueueLast(dcb[d], block, running, data[..size], write, dev);
      }
      AssignDevice(d, c, Accept(dev, op).value);
      return 0;
    }

    // -------------------------------------------------------------- system calls

    method AssignRunning(p: Ptr)
      requires Mirrors()
      modifies `running, `sys
      ensures Mirrors() && sys == old(sys).(running := p)
    {
      running := p;
      HoldsSame(pcb, queue, sys, sys.(running := p));
      sys := sys.(running := p);
    }

    /** Takes the head of the active-ready queue and makes it the running process. */
    method DispatchNext() returns (reply: Reply)
      requires Mirrors() && Queued(sys, {}) && queue[0].head != NULL
      modifies `pcb, `queue, `running, `sys
      ensures Mirrors() && old(sys).queues[0] != [] && Outcome(sys, reply) == Dispatch(old(sys))
    {
      HeadIsFirst(pcb, queue, sys);
      hide Named, Queued, Holds, Detach;
      var runnext := queue[0].head;
      var rc := PcbRemove(runnext);
      reply := LoadContext(runnext);
      AssignExec(runnext, Running);
      AssignRunning(runnext);
    }

    method AssignWaiting(w: bool)
      requires Mirrors()
      modifies `waiting, `sys
      ensures Mirrors() && sys == old(sys).(waiting := w)
    {
      waiting := w;
      HoldsSame(pcb, queue, sys, sys.(waiting := w));
      sys := sys.(waiting := w);
    }

    /** Blocks the running process in its queue, with the context to resume later. */
    method BlockRunning(ctxt: Context)
      requires Mirrors() && running in pcb && !InSomeQueue(sys, running)
      modifies `pcb, `queue, `sys
      ensures Mirrors() && sys == Enqueue(SetContext(SetExec(old(sys), running, Blocked), running, ctxt), running)
    {
      hide Named, Holds, Enqueue;
      AssignExec(running, Blocked);
      AssignContext(running, ctxt);
      PcbInsert(running);
    }

    /** The end of READ and WRITE: switch to the next ready process, or enter the wait loop. */
    method SwitchFromBlocked() returns (reply: Reply)
      requires Mirrors() && Queued(sys, {})
      modifies `pcb, `queue, `running, `waiting, `sys
      ensures Mirrors() && Outcome(sys, reply) == SwitchAway(old(sys))
    {
      HeadIsFirst(pcb, queue, sys);
      hide Named, Holds, Queued, Dispatch;
      if queue[0].head != NULL {
        reply := DispatchNext();
      } else {
        AssignRunning(NULL);
        AssignWaiting(true);
        reply := Pending;
      }
    }

    /** READ and WRITE */
    method ReadOrWrite(ctxt: Context, write: bool, data: seq<byte>, block: Ptr) returns (reply: Reply)
      requires Mirrors() && Core(sys) && running != NULL && (ctxt.ecx != 0 ==> ctxt.edx <= |data|)
      requires forall k :: 0 <= k < |dcb| ==> block !in dcb[k].iocbs
      modifies `pcb, `queue, `running, `waiting, `dcb, `sys
      ensures Mirrors() && Outcome(sys, reply) == Transfer(old(sys), old(running), ctxt, write, data, block != NULL)
    {
      hide Named, Holds, Accept, DevInv, Queued, Ownership, SwitchAway, Transfer, Enqueue, Controls;
      ghost var s0, p := sys, running;
      RunningIsApart(pcb, queue, sys);
      var ret := ScheduleIo(ctxt.ebx, ctxt.ecx, ctxt.edx, data, write, block);
      TransferCases(s0, p, ctxt, write, data, block != NULL);
      if ret != 0 {
        return Stay(0);
      }
      ghost var d, op := DevNo(ctxt.ebx), Op(p, write, ctxt.edx, data[..ctxt.edx]);
      BlockingKeeps(s0, p, ctxt, d, op);
      hide Core;
      BlockRunning(ctxt);
      reply := SwitchFromBlocked();
    }

    method AssignOriginal(c: Option<Context>)
      requires Mirrors()
      modifies `original, `sys
      ensures Mirrors() && sys == old(sys).(original := c)
    {
      original := c;
      HoldsSame(pcb, queue, sys, sys.(original := c));
      sys := sys.(original := c);
    }

    /** The yielding process goes to the back of its priority in its ready queue. */
    method RequeueRunning(ctxt: Context)
      requires Mirrors() && running in pcb && !InSomeQueue(sys, running)
      modifies `pcb, `queue, `sys
      ensures Mirrors() && pcb.Keys == old(pcb.Keys)
      ensures sys == Enqueue(SetExec(SetContext(old(sys), running, ctxt), running, Ready), running)
    {
      hide Named, Holds, Enqueue;
      AssignContext(running, ctxt);
      AssignExec(running, Ready);
      PcbInsert(running);
    }

    /** The queue moves of IDLE: the next process comes out before the yielding one goes in. */
    method Yield(next: Ptr, ctxt: Context)
      requires Mirrors() && Core(sys) && queue[0].head == next != NULL
      modifies `pcb, `queue, `sys
      ensures Mirrors() && sys == YieldTo(old(sys), next, ctxt) && next in pcb
    {
      hide Named, Core, Holds, Controls, Detach, Enqueue, SetExec, SetContext, InSomeQueue;
      YieldReady(pcb, queue, sys, next);
      var rc := PcbRemove(next);
      if running != NULL {
        RequeueRunning(ctxt);
      }
    }

    method IdleCall(ctxt: Context) returns (reply: Reply)
      requires Mirrors() && Core(sys)
      modifies `pcb, `queue, `running, `original, `sys
      ensures Mirrors() && Outcome(sys, reply) == Idle(old(sys), ctxt)
    {
      hide Named, Core, Holds, YieldTo, Queued;
      if original == None {
        FirstContextKeeps(sys, ctxt);
        AssignOriginal(Some(ctxt));
      }
      CoreParts(sys);
      HeadIsFirst(pcb, queue, sys);
      ghost var s1 := sys;
      if queue[0].head != NULL {
        var runnext := queue[0].head;
        YieldKeepsContext(s1, runnext, ctxt);
        Yield(runnext, ctxt);
        reply := LoadContext(runnext);
        AssignRunning(runnext);
        AssignExec(runnext, Running);
      } else {
        reply := Stay(0);
      }
    }

    /** pcb_free */
    method FreePcb(p: Ptr)
      requires Mirrors() && p in pcb && !InSomeQueue(sys, p)
      modifies `pcb, `sys
      ensures Mirrors() && sys == old(sys).(procs := old(sys).procs - {p})
    {
      FreeHolds(pcb, queue, sys, p);
      pcb, sys := pcb - {p}, sys.(procs := sys.procs - {p});
    }

    method ExitCall() returns (reply: Reply)
      requires Mirrors() && Core(sys) && running != NULL
      modifies `pcb, `queue, `running, `original, `sys
      ensures Mirrors() && Outcome(sys, reply) == Exit(old(sys), old(running))
    {
      RunningIsApart(pcb, queue, sys);
      DropKeeps(sys, sys.(procs := sys.procs - {running}), running);
      hide Core, Queued, Dispatch;
      FreePcb(running);
      HeadIsFirst(pcb, queue, sys);
      hide Named, Holds;
      if queue[0].head != NULL {
        reply := DispatchNext();
      } else if original != None {
        AssignRunning(NULL);
        var temp := original.value;
        AssignOriginal(None);
        reply := Load(temp);
      } else {
        reply := Stay(0);
      }
    }

    method LoadContext(p: Ptr) returns (reply: Reply)
      requires Mirrors() && p in pcb
      ensures p in sys.procs && reply == Load(sys.procs[p].ctxt)
    {
      assert Proc(pcb[p].state, pcb[p].ctxt) == sys.procs[p];
      reply := Load(pcb[p].ctxt);
    }

    /** sys_call; `block` is what the allocator gives for the operation, NULL when it fails. */
    method SysCall(ctxt: Context, data: seq<byte>, block: Ptr) returns (reply: Reply)
      requires Valid() && Enabled(sys, SysReq(ctxt, data, block != NULL)) && Available(dcb, block)
      modifies this
      ensures names == old(names)
      ensures Valid() && Outcome(sys, reply) == Step(old(sys), SysReq(ctxt, data, block != NULL))
    {
      hide Named, Core, Holds, Transfer, Idle, Exit, CheckUpTo, Controls, Kept, WakesOnlySuspended;
      StepKeeps(sys, SysReq(ctxt, data, block != NULL));
      CheckUpToKeeps(sys, 4);
      var op := ctxt.eax;
      var ready := CheckDevices();
      var saved := ctxt.(eax := 0);
      if op == OP_READ || op == OP_WRITE {
        if running != NULL {
          reply := ReadOrWrite(saved, op == OP_WRITE, data, block);
        } else {
          reply := Stay(-1);
        }
      } else if op == OP_IDLE {
        reply := IdleCall(saved);
      } else if op == OP_EXIT {
        reply := ExitCall();
      } else {
        reply := Stay(0);
      }
    }

    /** One turn of the wait loop, after an interrupt; the loop ends when a check finds work. */
    method WaitLoopTurn() returns (reply: Reply)
      requires Valid() && Enabled(sys, WaitLoop)
      modifies this
      ensures names == old(names)
      ensures Valid() && Outcome(sys, reply) == Step(old(sys), WaitLoop)
    {
      hide Named, Core, Holds, Dispatch, CheckUpTo, WakesOnlySuspended;
      StepKeeps(sys, WaitLoop);
      CheckUpToKeeps(sys, 4);
      var ready := CheckDevices();
      if !ready {
        return Pending;
      }
      CoreParts(sys);
      HeadIsFirst(pcb, queue, sys);
      if queue[0].head == NULL {
        fault := true;
        HoldsSame(pcb, queue, sys, sys.(fault := true));
        sys := sys.(fault := true);
        return Pending;
      }
      SameQueues(sys, sys.(waiting := false), {});
      hide Queued;
      AssignWaiting(false);
      reply := DispatchNext();
    }

    // -------------------------------------------------------------- interrupts and ports

    method InputIrq(d: nat, b: byte)
      requires Valid() && Enabled(sys, Event.InputIrq(d, b))
      modifies this
      ensures names == old(names)
      ensures Valid() && sys == Step(old(sys), Event.InputIrq(d, b)).sys
    {
      hide Named, Queued, Ownership, RunningOk, Holds, DevInv, Input, Controls, Represents, WakesOnlySuspended;
      StepKeeps(sys, Event.InputIrq(d, b));
      DeviceOk(sys, d);
      hide Core;
      ControlOf(dcb, sys.devs, d);
      if dcb[d].open {
        ghost var dev := sys.devs[d];
        var c := InputInterrupt(dcb[d], b, dev);
        AssignDevice(d, c, Input(dev, b).value);
      }
    }

    method OutputIrq(d: nat)
      requires Valid() && Enabled(sys, Event.OutputIrq(d))
      modifies this
      ensures names == old(names)
      ensures Valid() && sys == Step(old(sys), Event.OutputIrq(d)).sys
    {
      hide Named, Queued, Ownership, RunningOk, Holds, DevInv, Output, Controls, Represents, WakesOnlySuspended;
      StepKeeps(sys, Event.OutputIrq(d));
      DeviceOk(sys, d);
      hide Core;
      ControlOf(dcb, sys.devs, d);
      if dcb[d].open {
        ghost var dev := sys.devs[d];
        TransmitsForHead(dev);
        var c := OutputInterrupt(dcb[d], dev);
        AssignDevice(d, c, Output(dev).value);
      }
    }

    /** serial_open, as far as the control block goes; `beyond` is what the search for the speed reads too far. */
    method Open(port: int, speed: int, beyond: seq<int>) returns (rc: int)
      requires Valid() && !sys.fault && |BAUD_RATES + beyond| == RATE_BYTES
      modifies this
      ensures names == old(names)
      ensures Valid()
      ensures var d := DevNo(port);
              && rc == (if d == -1 then -1
                        else if old(sys).devs[d].open then -103
                        else if speed !in BAUD_RATES && speed !in beyond then -102
                        else 0)
              && sys == if rc == 0 then Step(old(sys), OpenPort(d)).sys else old(sys)
    {
      hide Named, Core, Holds, Controls, Spells, WakesOnlySuspended;
      var d := DevNo(port);
      if d == -1 {
        return ERR_DEV_NOT_FOUND;
      }
      StepKeeps(sys, OpenPort(d));
      ControlOf(dcb, sys.devs, d);
      if dcb[d].open {
        return O_ERR_PORT_ALREADY_OPEN;
      }
      var found := SpeedMatches(speed, beyond);
      if !found {
        return O_ERR_INVALID_SPEED;
      }
      var c := dcb[d].(ringBegin := 0, ringEnd := 0);
      c := c.(open := true, event := false);
      c := c.(txInt := false);
      AssignDevice(d, c, Opened(sys.devs[d]));
      return 0;
    }

    /** serial_close, as far as the control block goes; a port with work queued stays open. */
    method Close(port: int) returns (rc: int)
      requires Valid() && !sys.fault
      modifies this
      ensures names == old(names)
      ensures Valid()
      ensures var d := DevNo(port);
              && rc == (if d == -1 then -1
                        else if !old(sys).devs[d].open then -201
                        else if old(sys).devs[d].ops != [] then -204
                        else 0)
              && sys == if rc == 0 then Step(old(sys), ClosePort(d)).sys else old(sys)
    {
      hide Named, Core, Holds, Controls, Spells, WakesOnlySuspended;
      var d := DevNo(port);
      if d == -1 {
        return ERR_DEV_NOT_FOUND;
      }
      StepKeeps(sys, ClosePort(d));
      ControlOf(dcb, sys.devs, d);
      if !dcb[d].open {
        return C_ERR_PORT_NOT_OPEN;
      }
      if dcb[d].head != NULL {
        return C_ERR_DEV_BUSY;
      }
      AssignDevice(d, dcb[d].(txInt := false, open := false), Closed(sys.devs[d]));
      return 0;
    }

    // -------------------------------------------------------------- PCB commands

    /** pcb_find: the first PCB of that name in the first queue that has one, or NULL when none has. */
    method Find(name: string) returns (p: Ptr)
      requires Mirrors()
      ensures p != NULL ==> exists k: nat :: FirstFound(pcb, sys.queues, name, p, k)
      ensures p == NULL ==> forall x :: InSomeQueue(sys, x) ==> x in pcb && pcb[x].name != name
    {
      assert |queue| == 4 && forall k: nat :: k < 4 ==> Linked(pcb, queue[k], sys.queues[k]);
      hide Named, Holds, Linked, FirstFound;
      p := FindQueued(pcb, queue, name, sys.queues);
    }

    /**
     pcb_setup and pcb_insert: `p` is the block that the allocator returned, NULL if there was none.
     The name may be at most 63 characters, and no queued PCB may have it.
     */
    method Create(p: Ptr, name: string, cls: ClassState, pri: nat, ctxt: Context) returns (ok: bool)
      requires Valid() && !sys.fault && !sys.waiting && p !in pcb
      modifies this
      ensures Valid()
      ensures ok <==> |name| + 1 <= 64 && pri <= 9 && p != NULL &&
                      forall x :: InSomeQueue(old(sys), x) ==> x in old(pcb) && old(pcb)[x].name != name
      ensures !ok ==> sys == old(sys) && pcb == old(pcb)
      ensures ok ==> sys == Step(old(sys), CreatePcb(p, cls, pri, ctxt)).sys && p in pcb && pcb[p].name == name
      ensures names == if ok then old(names)[p := name] else old(names)
    {
      hide Named, Core, Holds, Enqueue;
      HoldsKeys(pcb, queue, sys);
      if |name| + 1 > 64 {
        return false;
      }
      var other := Find(name);
      if other != NULL || pri > 9 || p == NULL {
        return false;
      }
      StepKeeps(sys, CreatePcb(p, cls, pri, ctxt));
      NewHolds(pcb, queue, sys, p, PcbRec(NULL, PcbState(Ready, Active, cls, pri), ctxt, name));
      pcb := pcb[p := PcbRec(NULL, PcbState(Ready, Active, cls, pri), ctxt, name)];
      sys := sys.(procs := sys.procs[p := Proc(PcbState(Ready, Active, cls, pri), ctxt)]);
      NamedNew(old(pcb), old(names), p, pcb[p]);
      names := names[p := name];
      PcbInsert(p);
      return true;
    }

    /** Suspend: a system process is refused. */
    method Suspend(p: Ptr) returns (rc: int)
      requires Valid() && Enabled(sys, SuspendPcb(p))
      modifies this
      ensures names == old(names)
      ensures Valid() && sys == Step(old(sys), SuspendPcb(p)).sys
      ensures rc == if ProcOf(old(sys).procs, p).state.cls == System then 1 else 0
    {
      hide Named, Core, Holds, Controls, Detach, Enqueue, WakesOnlySuspended;
      StepKeeps(sys, SuspendPcb(p));
      ProcIn(pcb, queue, sys, p);
      if pcb[p].state.cls == System {
        return 1;
      }
      var gone := PcbRemove(p);
      AssignDispatch(p, Suspended);
      PcbInsert(p);
      return 0;
    }

    method Resume(p: Ptr)
      requires Valid() && Enabled(sys, ResumePcb(p))
      modifies this
      ensures names == old(names)
      ensures Valid() && sys == Step(old(sys), ResumePcb(p)).sys
    {
      hide Named, Core, Holds, Controls, Detach, Enqueue, WakesOnlySuspended;
      StepKeeps(sys, ResumePcb(p));
      ProcIn(pcb, queue, sys, p);
      var gone := PcbRemove(p);
      AssignDispatch(p, Active);
      PcbInsert(p);
    }

    method ChangePriority(p: Ptr, pri: nat)
      requires Valid() && Enabled(sys, SetPriority(p, pri))
      modifies this
      ensures names == old(names)
      ensures Valid() && sys == Step(old(sys), SetPriority(p, pri)).sys
    {
      hide Named, Core, Holds, Controls, Detach, Enqueue, WakesOnlySuspended;
      StepKeeps(sys, SetPriority(p, pri));
      ProcIn(pcb, queue, sys, p);
      var gone := PcbRemove(p);
      AssignPri(p, pri);
      PcbInsert(p);
    }

    /** Delete; a process with outstanding I/O is not refused, and the invariant is lost with it. */
    method Delete(p: Ptr) returns (rc: int)
      requires Valid() && !sys.fault && !sys.waiting && InAQueue(sys, p)
      modifies this
      ensures names == old(names)
      ensures Mirrors() && sys == Step(old(sys), DeletePcb(p)).sys
      ensures rc == if old(sys).procs[p].state.cls == System then 1 else 0
      ensures Valid() <==> rc == 1 || old(sys).procs[p].state.exec == Ready
    {
      hide Named, Core, Holds, Controls, Detach, WakesOnlySuspended;
      if sys.procs[p].state.cls == User {
        DeleteExact(sys, p);
      }
      ProcIn(pcb, queue, sys, p);
      if pcb[p].state.cls == System {
        return 1;
      }
      var gone := PcbRemove(p);
      FreePcb(p);
      return 0;
    }
  }

  lemma NewHolds(mem: Memory, queue: seq<QueueRec>, s: Sys, p: Ptr, rec: PcbRec)
    requires Holds(mem, queue, s) && p !in mem && p != NULL && rec.next == NULL
    ensures Holds(mem[p := rec], queue, s.(procs := s.procs[p := Proc(rec.state, rec.ctxt)]))
    ensures !InSomeQueue(s, p)
  {
    var mem' := mem[p := rec];
    forall k: nat | k < 4 ensures Linked(mem', queue[k], s.queues[k]) && p !in s.queues[k] {
      HeadAndNext(mem, queue[k], s.queues[k]);
      LinkedElsewhere(mem, mem', queue[k], s.queues[k]);
    }
    hide Linked;
  }

  lemma HoldsKeys(mem: Memory, queue: seq<QueueRec>, s: Sys)
    requires Holds(mem, queue, s)
    ensures mem.Keys == s.procs.Keys
  {
  }

  lemma ProcIn(mem: Memory, queue: seq<QueueRec>, s: Sys, p: Ptr)
    requires Holds(mem, queue, s) && InAQueue(s, p)
    ensures p in mem && Proc(mem[p].state, mem[p].ctxt) == s.procs[p]
  {
  }

  /** The next process is in memory, and the yielding one is in no queue when it enters its own. */
  lemma YieldReady(mem: Memory, queue: seq<QueueRec>, s: Sys, next: Ptr)
    requires Holds(mem, queue, s) && Core(s) && queue[0].head == next != NULL
    ensures next in mem
    ensures s.running != NULL ==> s.running in mem && !InSomeQueue(Detach(s, next), s.running)
  {
    hide Core, Holds, Detach, Queued, RunningOk, InSomeQueue;
    CoreParts(s);
    HeadIsFirst(mem, queue, s);
    if s.running != NULL {
      RunningIsApart(mem, queue, s);
      DetachSubset(s, next);
    }
  }

  lemma HeadIsFirst(mem: Memory, queue: seq<QueueRec>, s: Sys)
    requires Holds(mem, queue, s) && Queued(s, {})
    ensures |queue| == 4
    ensures queue[0].head == NULL <==> s.queues[0] == []
    ensures s.queues[0] != [] ==>
              && queue[0].head == s.queues[0][0] && s.queues[0][0] in mem && InAQueue(s, s.queues[0][0])
              && QueueOf(s.procs, s.queues[0][0]) == 0
  {
    assert Linked(mem, queue[0], s.queues[0]);
    HeadAndNext(mem, queue[0], s.queues[0]);
    if s.queues[0] != [] {
      ReadyHead(s);
    }
  }

  lemma DetachSubset(s: Sys, p: Ptr)
    ensures forall x :: InSomeQueue(Detach(s, p), x) ==> InSomeQueue(s, x)
  {
    var q := s.queues[QueueOf(s.procs, p)];
    var i := IndexOf(q, p);
    if i < |q| {
      forall x | x in RemoveAt(q, i) ensures x in q {
        var j := IndexOf(RemoveAt(q, i), x);
        assert x == if j < i then q[j] else q[j + 1];
      }
    }
  }

  lemma FirstContextKeeps(s: Sys, ctxt: Context)
    requires Core(s) && s.original == None
    ensures Core(s.(original := Some(ctxt)))
  {
    var s' := s.(original := Some(ctxt));
    SameQueues(s, s', {});
    SameOps(s, s');
    hide Queued, Ownership, DevInv;
  }

  lemma YieldKeepsContext(s: Sys, next: Ptr, ctxt: Context)
    requires Core(s) && s.queues[0] != [] && next == s.queues[0][0]
    ensures next in s.procs && next in YieldTo(s, next, ctxt).procs
    ensures YieldTo(s, next, ctxt).procs[next] == s.procs[next]
    ensures YieldTo(s, next, ctxt) == s.(queues := YieldTo(s, next, ctxt).queues, procs := YieldTo(s, next, ctxt).procs)
  {
    ReadyHead(s);
    YieldKeeps(s, next, ctxt);
    hide Queued, YieldTo, Ownership, DevicesOk;
  }

  lemma FreeHolds(mem: Memory, queue: seq<QueueRec>, s: Sys, p: Ptr)
    requires Holds(mem, queue, s) && p in mem && !InSomeQueue(s, p)
    ensures Holds(mem - {p}, queue, s.(procs := s.procs - {p}))
  {
    var mem' := mem - {p};
    forall k: nat | k < 4 ensures Linked(mem', queue[k], s.queues[k]) {
      HeadAndNext(mem, queue[k], s.queues[k]);
      assert forall i :: 0 <= i < |s.queues[k]| ==> s.queues[k][i] in s.queues[k];
      LinkedElsewhere(mem, mem', queue[k], s.queues[k]);
    }
    hide Linked;
  }

  lemma RunningIsApart(mem: Memory, queue: seq<QueueRec>, s: Sys)
    requires Holds(mem, queue, s) && Core(s) && s.running != NULL
    ensures s.running in mem && !InSomeQueue(s, s.running)
  {
    hide Linked, Ownership, DevicesOk;
    assert QueueOk(s, {}, 0) && QueueOk(s, {}, 1) && QueueOk(s, {}, 2) && QueueOk(s, {}, 3);
  }

  lemma AcceptBusy(d: Dev, op: Op)
    requires d.ops != []
    ensures Accept(d, op) == Some(d.(ops := d.ops + [op], accepted := d.accepted + [op]))
  {
  }
}
