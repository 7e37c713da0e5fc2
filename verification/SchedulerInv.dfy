/**
 The global invariant of the scheduler and its preservation by every event.
 */
module SchedulerInv {
  import opened Common
  import opened PcbQueues
  import opened Devices
  import opened Scheduler

  /**
   Every PCB that is neither running nor in `hand` is in exactly one queue, once: the one its state
   selects. The two ready queues are sorted by priority.
   */
  ghost predicate Queued(s: Sys, hand: set<Ptr>) {
    && (forall k: nat :: k < 4 ==> QueueOk(s, hand, k))
    && (forall p :: p in s.procs && p !in hand && s.procs[p].state.exec != Running ==> InAQueue(s, p))
  }

  ghost predicate QueueOk(s: Sys, hand: set<Ptr>, k: nat)
    requires k < 4
  {
    && (forall p :: p in s.queues[k] ==> Belongs(s, hand, p, k))
    && Distinct(s.queues[k])
    && (IsPriorityQueue(k) ==> Ascending(Pris(s.procs, s.queues[k])))
  }

  ghost predicate Belongs(s: Sys, hand: set<Ptr>, p: Ptr, k: nat) {
    p in s.procs && p !in hand && s.procs[p].state.exec != Running && Selector(s.procs[p].state) == k
  }

  /** `pcb_running` is the one PCB in state RUNNING; it is active, and a first context was saved. */
  ghost predicate RunningOk(s: Sys) {
    && (s.running != NULL ==>
          s.running in s.procs && s.procs[s.running].state.exec == Running &&
          s.procs[s.running].state.dispatch == Active && s.original.Some?)
    && (forall p :: p in s.procs && s.procs[p].state.exec == Running ==> p == s.running)
    && (s.waiting ==> s.running == NULL && s.original.Some?)
    && NULL !in s.procs
  }

  predicate IsOp(s: Sys, d: int, i: int) {
    0 <= d < 4 && 0 <= i < |s.devs[d].ops|
  }

  /** The requester of operation `i` on device `d`. */
  function Rq(s: Sys, d: int, i: int): Ptr
    requires IsOp(s, d, i)
  {
    s.devs[d].ops[i].rq
  }

  ghost predicate OwnsOp(s: Sys, p: Ptr) {
    exists d, i :: IsOp(s, d, i) && Rq(s, d, i) == p
  }

  predicate IsBlocked(s: Sys, p: Ptr) {
    p in s.procs && s.procs[p].state.exec == Blocked
  }

  /** Blocked PCBs and queued operations are in bijection through the requester. */
  ghost predicate Ownership(s: Sys) {
    && (forall d, i :: IsOp(s, d, i) ==> IsBlocked(s, Rq(s, d, i)))
    && (forall d, i, e, j :: IsOp(s, d, i) && IsOp(s, e, j) && Rq(s, d, i) == Rq(s, e, j) ==> d == e && i == j)
    && (forall p :: p in s.procs && IsBlocked(s, p) ==> OwnsOp(s, p))
  }

  ghost predicate DevicesOk(s: Sys) {
    forall d :: 0 <= d < 4 ==> DevInv(s.devs[d])
  }

  ghost predicate Core(s: Sys) {
    Queued(s, {}) && RunningOk(s) && Ownership(s) && DevicesOk(s)
  }

  /** The invariant between events. The wait loop is entered, and stayed in, with nothing to run. */
  ghost predicate Inv(s: Sys) {
    Core(s) && (s.waiting ==> s.queues[0] == [])
  }

  lemma CoreParts(s: Sys)
    requires Core(s)
    ensures Queued(s, {}) && RunningOk(s)
  {
  }

  lemma DeviceOk(s: Sys, d: nat)
    requires Core(s) && d < 4
    ensures DevInv(s.devs[d])
  {
  }

  // ---------------------------------------------------------------- queue moves

  /** Moves touch nothing but the queues. */
  lemma MovesShape(s: Sys, p: Ptr)
    ensures Detach(s, p) == s.(queues := Detach(s, p).queues)
    ensures Enqueue(s, p) == s.(queues := Enqueue(s, p).queues)
  {
  }

  lemma MovesShapes()
    ensures forall s, p :: Detach(s, p) == s.(queues := Detach(s, p).queues)
    ensures forall s, p :: Enqueue(s, p) == s.(queues := Enqueue(s, p).queues)
  {
  }

  lemma RemoveAtMembers(q: seq<Ptr>, i: nat)
    requires i < |q| && Distinct(q)
    ensures Distinct(RemoveAt(q, i))
    ensures forall x :: x in RemoveAt(q, i) <==> x in q && x != q[i]
  {
    var r := RemoveAt(q, i);
    forall x | x in q && x != q[i] ensures x in r {
      var j := IndexOf(q, x);
      assert x == if j < i then r[j] else r[j - 1];
    }
  }

  lemma InsertAtMembers(q: seq<Ptr>, i: nat, p: Ptr)
    requires i <= |q| && Distinct(q) && p !in q
    ensures Distinct(InsertAt(q, i, p))
    ensures forall x :: x in InsertAt(q, i, p) <==> x in q || x == p
  {
    var r := InsertAt(q, i, p);
    assert r[i] == p;
    forall x | x in q ensures x in r {
      var j := IndexOf(q, x);
      assert x == if j < i then r[j] else r[j + 1];
    }
  }

  lemma DetachKeeps(s: Sys, hand: set<Ptr>, p: Ptr)
    requires Queued(s, hand) && p in s.procs && p !in hand && s.procs[p].state.exec != Running
    ensures Queued(Detach(s, p), hand + {p})
    ensures forall k :: 0 <= k < 4 && k != QueueOf(s.procs, p) ==> Detach(s, p).queues[k] == s.queues[k]
    ensures Detach(s, p) == s.(queues := Detach(s, p).queues)
  {
    var c := QueueOf(s.procs, p);
    var q, i, s' := s.queues[c], IndexOf(s.queues[c], p), Detach(s, p);
    assert QueueOk(s, hand, c) && InAQueue(s, p);
    RemoveAtMembers(q, i);
    RemoveKeepsAscending(Pris(s.procs, q), i);
    assert Pris(s.procs, RemoveAt(q, i)) == RemoveAt(Pris(s.procs, q), i);
    forall k: nat | k < 4 ensures QueueOk(s', hand + {p}, k) {
      assert QueueOk(s, hand, k);
      assert forall x :: x in s'.queues[k] ==> x != p && Belongs(s, hand, x, k);
    }
    forall x | x in s'.procs && x !in hand + {p} && s'.procs[x].state.exec != Running ensures InAQueue(s', x) {
      assert InAQueue(s, x);
    }
  }

  lemma EnqueueKeeps(s: Sys, hand: set<Ptr>, p: Ptr)
    requires Queued(s, hand) && p in hand && p in s.procs && s.procs[p].state.exec != Running
    ensures Queued(Enqueue(s, p), hand - {p})
    ensures forall k :: 0 <= k < 4 && k != QueueOf(s.procs, p) ==> Enqueue(s, p).queues[k] == s.queues[k]
  {
    var c := QueueOf(s.procs, p);
    var q, i, s' := s.queues[c], EntryIndex(s, p), Enqueue(s, p);
    assert QueueOk(s, hand, c);
    InsertAtMembers(q, i, p);
    if IsPriorityQueue(c) {
      InsertKeepsAscending(Pris(s.procs, q), s.procs[p].state.pri);
      assert Pris(s.procs, InsertAt(q, i, p)) == InsertAt(Pris(s.procs, q), i, s.procs[p].state.pri);
    }
    forall k: nat | k < 4 ensures QueueOk(s', hand - {p}, k) {
      assert QueueOk(s, hand, k);
      assert forall x :: x in s'.queues[k] && x != p ==> Belongs(s, hand, x, k);
    }
    forall x | x in s'.procs && x !in hand - {p} && s'.procs[x].state.exec != Running ensures InAQueue(s', x) {
      assert x != p ==> InAQueue(s, x);
    }
  }

  /** A PCB in hand may be rewritten freely. */
  lemma UpdateKeeps(s: Sys, s': Sys, hand: set<Ptr>, p: Ptr)
    requires Queued(s, hand) && p in hand
    requires s'.queues == s.queues && s'.procs.Keys == s.procs.Keys + {p}
    requires forall x :: x in s.procs && x != p ==> s'.procs[x] == s.procs[x]
    ensures Queued(s', hand)
  {
    forall k: nat | k < 4 ensures QueueOk(s', hand, k) {
      assert QueueOk(s, hand, k);
      assert forall x :: x in s'.queues[k] ==> Belongs(s, hand, x, k);
      assert forall i :: 0 <= i < |s.queues[k]| ==> s.queues[k][i] in s.queues[k];
      assert Pris(s'.procs, s'.queues[k]) == Pris(s.procs, s.queues[k]);
    }
    forall x | x in s'.procs && x !in hand && s'.procs[x].state.exec != Running ensures InAQueue(s', x) {
      assert InAQueue(s, x);
    }
  }

  /** A PCB that is running or not live is in no queue, so it can be taken in hand. */
  lemma TakeInHand(s: Sys, hand: set<Ptr>, p: Ptr)
    requires Queued(s, hand)
    requires p !in s.procs || s.procs[p].state.exec == Running
    ensures Queued(s, hand + {p})
  {
    forall k: nat | k < 4 ensures QueueOk(s, hand + {p}, k) {
      assert QueueOk(s, hand, k);
    }
  }

  lemma LetGo(s: Sys, hand: set<Ptr>, p: Ptr)
    requires Queued(s, hand)
    requires p !in s.procs || s.procs[p].state.exec == Running
    ensures Queued(s, hand - {p})
  {
    forall k: nat | k < 4 ensures QueueOk(s, hand - {p}, k) {
      assert QueueOk(s, hand, k);
    }
  }

  // ---------------------------------------------------------------- waking requesters

  /** Retiring the head operation of device `d` with its requester made ready keeps the bijection. */
  lemma RetireKeepsOwnership(s: Sys, s': Sys, d: nat)
    requires Ownership(s) && d < 4 && s.devs[d].ops != []
    requires forall e :: 0 <= e < 4 && e != d ==> s'.devs[e].ops == s.devs[e].ops
    requires |s'.devs[d].ops| == |s.devs[d].ops| - 1
    requires forall i :: 0 <= i < |s'.devs[d].ops| ==> s'.devs[d].ops[i].rq == s.devs[d].ops[i + 1].rq
    requires var p := s.devs[d].ops[0].rq;
             && s'.procs.Keys == s.procs.Keys
             && (forall x :: x in s.procs && x != p ==> s'.procs[x].state.exec == s.procs[x].state.exec)
             && (p in s.procs ==> s'.procs[p].state.exec == Ready)
    ensures Ownership(s')
  {
    var p := s.devs[d].ops[0].rq;
    assert IsOp(s, d, 0) && Rq(s, d, 0) == p;
    forall e, i | IsOp(s', e, i)
      ensures var i0 := if e == d then i + 1 else i; IsOp(s, e, i0) && Rq(s', e, i) == Rq(s, e, i0) != p
    {
    }
    forall x | x in s'.procs && IsBlocked(s', x) ensures OwnsOp(s', x) {
      assert IsBlocked(s, x);
      var e, i :| IsOp(s, e, i) && Rq(s, e, i) == x;
      var i1 := if e == d then i - 1 else i;
      assert IsOp(s', e, i1) && Rq(s', e, i1) == x;
    }
  }

  /** pcb_remove, a rewritten PCB, pcb_insert. */
  function Reentered(s: Sys, p: Ptr, proc: Proc): Sys {
    var s1 := Detach(s, p);
    Enqueue(s1.(procs := s1.procs[p := proc]), p)
  }

  lemma ReenterKeeps(s: Sys, p: Ptr, proc: Proc)
    requires Queued(s, {}) && p in s.procs && s.procs[p].state.exec != Running && proc.state.exec != Running
    ensures var s' := Reentered(s, p, proc);
            Queued(s', {}) && s' == s.(queues := s'.queues, procs := s.procs[p := proc])
  {
    hide Queued, Detach, Enqueue;
    var none: set<Ptr> := {};
    assert none + {p} == {p} && {p} - {p} == none;
    DetachKeeps(s, none, p);
    var s1 := Detach(s, p);
    var s2 := s1.(procs := s1.procs[p := proc]);
    UpdateKeeps(s1, s2, {p}, p);
    EnqueueKeeps(s2, {p}, p);
    MovesShape(s2, p);
  }

  lemma WakeReenters(s: Sys, p: Ptr, count: nat)
    requires p in s.procs
    ensures Wake(s, p, count) ==
            Reentered(s, p, Proc(s.procs[p].state.(exec := Ready), s.procs[p].ctxt.(eax := count)))
  {
    hide Detach, Enqueue;
    MovesShape(s, p);
    var s1, proc := Detach(s, p), Proc(s.procs[p].state.(exec := Ready), s.procs[p].ctxt.(eax := count));
    assert SetContext(SetExec(s1, p, Ready), p, proc.ctxt).procs == s1.procs[p := proc];
  }

  lemma WakeKeeps(s: Sys, p: Ptr, count: nat)
    requires Queued(s, {}) && p in s.procs && s.procs[p].state.exec != Running
    ensures var s' := Wake(s, p, count);
            && Queued(s', {})
            && s' == s.(queues := s'.queues, procs := s'.procs)
            && s'.procs == s.procs[p := s.procs[p].(state := s.procs[p].state.(exec := Ready),
                                                    ctxt := s.procs[p].ctxt.(eax := count))]
  {
    hide Queued, Wake, Reentered;
    WakeReenters(s, p, count);
    ReenterKeeps(s, p, Proc(s.procs[p].state.(exec := Ready), s.procs[p].ctxt.(eax := count)));
  }

  lemma SameQueues(s: Sys, s': Sys, hand: set<Ptr>)
    requires Queued(s, hand) && s'.queues == s.queues && s'.procs == s.procs
    ensures Queued(s', hand)
  {
    forall k: nat | k < 4 ensures QueueOk(s', hand, k) {
      assert QueueOk(s, hand, k);
    }
    forall x | x in s'.procs && x !in hand && s'.procs[x].state.exec != Running ensures InAQueue(s', x) {
      assert InAQueue(s, x);
    }
  }

  /** What serial_check_io does to a state that meets the invariant. */
  lemma CheckIoShape(s: Sys, d: nat)
    requires Core(s) && d < 4
    ensures s.devs[d].event ==>
              && s.devs[d].ops != [] && IsBlocked(s, s.devs[d].ops[0].rq) && Retire(s.devs[d]).Some?
              && DevInv(Retire(s.devs[d]).value)
              && CheckIo(s, d) == (Wake(s, s.devs[d].ops[0].rq, s.devs[d].idx)
                                   .(devs := s.devs[d := Retire(s.devs[d]).value]), true)
    ensures !s.devs[d].event ==> CheckIo(s, d) == (s, false)
  {
    var dev := s.devs[d];
    assert DevInv(dev);
    if dev.event {
      RetireKeeps(dev);
      assert IsOp(s, d, 0) && IsBlocked(s, Rq(s, d, 0));
    }
  }

  lemma RunningKept(s: Sys, s': Sys, p: Ptr)
    requires RunningOk(s) && p in s.procs && s.procs[p].state.exec != Running
    requires s'.running == s.running && s'.original == s.original && s'.waiting == s.waiting
    requires s'.procs.Keys == s.procs.Keys && s'.procs[p].state.exec != Running
    requires forall x :: x in s.procs && x != p ==> s'.procs[x] == s.procs[x]
    ensures RunningOk(s')
  {
  }

  lemma DevicesKept(s: Sys, s': Sys, d: nat)
    requires DevicesOk(s) && d < 4
    requires DevInv(s'.devs[d]) && (forall e :: 0 <= e < 4 && e != d ==> s'.devs[e] == s.devs[e])
    ensures DevicesOk(s')
  {
  }

  lemma CheckIoKeeps(s: Sys, d: nat)
    requires Core(s) && d < 4
    ensures var (s', ready) := CheckIo(s, d);
            && Core(s')
            && s' == s.(queues := s'.queues, procs := s'.procs, devs := s'.devs)
            && (ready <==> s.devs[d].event)
            && (!ready ==> s' == s)
            && (forall e :: 0 <= e < 4 && e != d ==> s'.devs[e] == s.devs[e])
  {
    hide Wake, Retire, Devices.DevInv, StartHead;
    CheckIoShape(s, d);
    if s.devs[d].event {
      var p, s' := s.devs[d].ops[0].rq, CheckIo(s, d).0;
      var w := Wake(s, p, s.devs[d].idx);
      WakeKeeps(s, p, s.devs[d].idx);
      SameQueues(w, s', {});
      RetireRequesters(s.devs[d]);
      RunningKept(s, s', p);
      RetireKeepsOwnership(s, s', d);
      DevicesKept(s, s', d);
    }
  }

  lemma RetireRequesters(d: Dev)
    requires d.event && d.ops != [] && Retire(d).Some?
    ensures |Retire(d).value.ops| == |d.ops| - 1
    ensures forall i :: 0 <= i < |d.ops| - 1 ==> Retire(d).value.ops[i].rq == d.ops[i + 1].rq
  {
  }

  lemma CheckUpToNone(s: Sys)
    ensures CheckUpTo(s, 0) == (s, false)
  {
  }

  lemma CheckUpToUnfold(s: Sys, n: nat)
    requires 0 < n <= 4
    ensures var before := CheckUpTo(s, n - 1); var last := CheckIo(before.0, n - 1);
            CheckUpTo(s, n) == (last.0, before.1 || last.1)
  {
  }

  lemma CheckUpToKeeps(s: Sys, n: nat)
    requires Core(s) && n <= 4
    ensures var (s', ready) := CheckUpTo(s, n);
            && Core(s')
            && s' == s.(queues := s'.queues, procs := s'.procs, devs := s'.devs)
            && (ready <==> exists d :: 0 <= d < n && s.devs[d].event)
            && (!ready ==> s' == s)
            && (forall d :: n <= d < 4 ==> s'.devs[d] == s.devs[d])
  {
    if n > 0 {
      hide CheckUpTo, CheckIo, Core;
      CheckUpToUnfold(s, n);
      CheckUpToKeeps(s, n - 1);
      CheckIoKeeps(CheckUpTo(s, n - 1).0, n - 1);
    }
  }

  // ---------------------------------------------------------------- dispatching

  lemma DispatchShape(s: Sys)
    requires s.queues[0] != [] && s.queues[0][0] in s.procs
    ensures var p, o := s.queues[0][0], Dispatch(s);
            && o.reply == Load(s.procs[p].ctxt)
            && o.sys == s.(queues := o.sys.queues, running := p,
                           procs := s.procs[p := s.procs[p].(state := s.procs[p].state.(exec := Running))])
  {
  }

  /** Taking the head of the ready queue and making it run, with nobody else running. */
  lemma DispatchKeeps(s: Sys)
    requires Queued(s, {}) && s.queues[0] != []
    requires forall x :: x in s.procs ==> s.procs[x].state.exec != Running
    requires s.original.Some? && Ownership(s) && DevicesOk(s) && !s.waiting && NULL !in s.procs
    ensures Inv(Dispatch(s).sys) && Dispatch(s).sys.fault == s.fault
    ensures s.queues[0][0] in s.procs && Dispatch(s).reply == Load(s.procs[s.queues[0][0]].ctxt)
    ensures Dispatch(s).sys == s.(queues := Dispatch(s).sys.queues, running := s.queues[0][0],
                                  procs := Dispatch(s).sys.procs)
  {
    hide Queued, Ownership, DevicesOk, Dispatch;
    var p := s.queues[0][0];
    ReadyHead(s);
    DispatchQueues(s);
    DispatchShape(s);
    SameOps(s, Dispatch(s).sys);
    SameDevices(s, Dispatch(s).sys);
  }

  lemma SameDevices(s: Sys, s': Sys)
    requires DevicesOk(s) && s'.devs == s.devs
    ensures DevicesOk(s')
  {
  }

  lemma DispatchQueues(s: Sys)
    requires Queued(s, {}) && s.queues[0] != []
    ensures Queued(Dispatch(s).sys, {})
  {
    var p, none: set<Ptr> := s.queues[0][0], {};
    assert none + {p} == {p};
    ReadyHead(s);
    DetachKeeps(s, none, p);
    RunInsteadKeeps(Detach(s, p), p);
  }

  /** The bijection only looks at who is blocked and who asked. */
  lemma SameOps(s: Sys, s': Sys)
    requires Ownership(s)
    requires forall d, i :: IsOp(s', d, i) <==> IsOp(s, d, i)
    requires forall d, i :: IsOp(s, d, i) ==> Rq(s', d, i) == Rq(s, d, i)
    requires forall p :: p in s.procs && s.procs[p].state.exec == Blocked ==> IsBlocked(s', p)
    requires forall p :: p in s'.procs && s'.procs[p].state.exec == Blocked ==> IsBlocked(s, p)
    ensures Ownership(s')
  {
    forall p | p in s'.procs && IsBlocked(s', p) ensures OwnsOp(s', p) {
      assert OwnsOp(s, p);
      var d, i :| IsOp(s, d, i) && Rq(s, d, i) == p;
      assert IsOp(s', d, i);
    }
  }

  // ---------------------------------------------------------------- READ, WRITE, IDLE, EXIT

  /** A new operation of the process that just became blocked extends the bijection. */
  lemma AcceptKeepsOwnership(s: Sys, s': Sys, d: nat, p: Ptr)
    requires Ownership(s) && d < 4 && p in s.procs && s.procs[p].state.exec == Running
    requires forall e :: 0 <= e < 4 && e != d ==> s'.devs[e] == s.devs[e]
    requires |s'.devs[d].ops| == |s.devs[d].ops| + 1
    requires forall i :: 0 <= i < |s.devs[d].ops| ==> s'.devs[d].ops[i].rq == s.devs[d].ops[i].rq
    requires s'.devs[d].ops[|s.devs[d].ops|].rq == p
    requires s'.procs.Keys == s.procs.Keys && s'.procs[p].state.exec == Blocked
    requires forall x :: x in s.procs && x != p ==> s'.procs[x] == s.procs[x]
    ensures Ownership(s')
  {
    var n := |s.devs[d].ops|;
    assert IsOp(s', d, n) && Rq(s', d, n) == p;
    forall e, i | IsOp(s', e, i) && !(e == d && i == n) ensures IsOp(s, e, i) && Rq(s', e, i) == Rq(s, e, i) != p {
      assert IsBlocked(s, Rq(s, e, i));
    }
    forall x | x in s'.procs && IsBlocked(s', x) && x != p ensures OwnsOp(s', x) {
      assert OwnsOp(s, x);
      var e, i :| IsOp(s, e, i) && Rq(s, e, i) == x;
      assert IsOp(s', e, i);
    }
  }

  lemma AcceptRequesters(d: Dev, op: Op)
    requires Accept(d, op).Some?
    ensures |Accept(d, op).value.ops| == |d.ops| + 1
    ensures forall i :: 0 <= i < |d.ops| ==> Accept(d, op).value.ops[i].rq == d.ops[i].rq
    ensures Accept(d, op).value.ops[|d.ops|].rq == op.rq
  {
  }

  /** Removing a PCB that neither runs nor is queued, or appending one, respects the queues. */
  lemma BlockKeepsQueues(s: Sys, s1: Sys, p: Ptr)
    requires Queued(s, {}) && p in s.procs && s.procs[p].state.exec == Running
    requires s1.queues == s.queues && s1.procs.Keys == s.procs.Keys && s1.procs[p].state.exec != Running
    requires forall x :: x in s.procs && x != p ==> s1.procs[x] == s.procs[x]
    ensures Queued(Enqueue(s1, p), {})
  {
    var none: set<Ptr> := {};
    assert none + {p} == {p} && {p} - {p} == none;
    TakeInHand(s, none, p);
    UpdateKeeps(s, s1, {p}, p);
    EnqueueKeeps(s1, {p}, p);
  }

  /** The state of READ or WRITE just before the next process is chosen. */
  function Blocking(s: Sys, p: Ptr, ctxt: Context, d: nat, dev: Dev): Sys
    requires d < 4
  {
    Enqueue(SetContext(SetExec(s.(devs := s.devs[d := dev]), p, Blocked), p, ctxt), p)
  }

  lemma BlockingShape(s: Sys, p: Ptr, ctxt: Context, d: nat, dev: Dev)
    requires d < 4 && p in s.procs
    ensures var s' := Blocking(s, p, ctxt, d, dev);
            && s' == s.(queues := s'.queues, procs := s'.procs, devs := s'.devs)
            && s'.procs == s.procs[p := Proc(s.procs[p].state.(exec := Blocked), ctxt)]
            && s'.devs == s.devs[d := dev]
  {
    hide EntryIndex;
  }

  lemma BlockingKeepsQueues(s: Sys, p: Ptr, ctxt: Context, d: nat, dev: Dev)
    requires Queued(s, {}) && p in s.procs && s.procs[p].state.exec == Running && d < 4
    ensures Queued(Blocking(s, p, ctxt, d, dev), {})
  {
    hide EntryIndex, Queued;
    BlockKeepsQueues(s, SetContext(SetExec(s.(devs := s.devs[d := dev]), p, Blocked), p, ctxt), p);
  }

  lemma BlockingKeeps(s: Sys, p: Ptr, ctxt: Context, d: nat, op: Op)
    requires Core(s) && s.running == p != NULL && d < 4 && s.devs[d].open && Fits(op) && op.rq == p
    ensures p in s.procs && Accept(s.devs[d], op).Some?
    ensures var s' := Blocking(s, p, ctxt, d, Accept(s.devs[d], op).value);
            && Queued(s', {}) && Ownership(s') && DevicesOk(s')
            && s' == s.(queues := s'.queues, procs := s'.procs, devs := s'.devs)
            && s'.procs == s.procs[p := Proc(s.procs[p].state.(exec := Blocked), ctxt)]
            && s'.devs == s.devs[d := Accept(s.devs[d], op).value]
  {
    hide Accept, Devices.DevInv, Blocking, Queued, Ownership, DevicesOk;
    DeviceOk(s, d);
    AcceptKeeps(s.devs[d], op);
    AcceptRequesters(s.devs[d], op);
    var dev := Accept(s.devs[d], op).value;
    BlockingShape(s, p, ctxt, d, dev);
    BlockingKeepsQueues(s, p, ctxt, d, dev);
    var s' := Blocking(s, p, ctxt, d, dev);
    AcceptKeepsOwnership(s, s', d, p);
    DevicesKept(s, s', d);
  }

  lemma TransferCases(s: Sys, p: Ptr, ctxt: Context, write: bool, data: seq<byte>, memOk: bool)
    requires ctxt.ecx != 0 ==> ctxt.edx <= |data|
    ensures var code := ScheduleCode(s.devs, ctxt, memOk);
            && code == ScheduleCode(s.devs, Context(0, ctxt.ebx, ctxt.ecx, ctxt.edx), memOk)
            && (code != 0 ==> Transfer(s, p, ctxt, write, data, memOk) == Outcome(s, Stay(0)))
            && (code == 0 ==>
                  var d, op := DevNo(ctxt.ebx), Op(p, write, ctxt.edx, data[..ctxt.edx]);
                  && 0 <= d && 0 < ctxt.edx && s.devs[d].open
                  && (Accept(s.devs[d], op).Some? ==>
                        Transfer(s, p, ctxt, write, data, memOk) ==
                        SwitchAway(Blocking(s, p, ctxt, d, Accept(s.devs[d], op).value))))
  {
    hide Accept, SwitchAway, Enqueue;
  }

  lemma SwitchAwayKeeps(s: Sys)
    requires Queued(s, {}) && Ownership(s) && DevicesOk(s) && s.original.Some? && !s.waiting && NULL !in s.procs
    requires forall x :: x in s.procs ==> s.procs[x].state.exec != Running
    ensures Inv(SwitchAway(s).sys) && SwitchAway(s).sys.fault == s.fault
  {
    hide Devices.DevInv, Dispatch;
    if s.queues[0] != [] {
      DispatchKeeps(s);
    } else {
      var s' := s.(running := NULL, waiting := true);
      SameQueues(s, s', {});
      SameOps(s, s');
    }
  }

  lemma TransferKeeps(s: Sys, p: Ptr, ctxt: Context, write: bool, data: seq<byte>, memOk: bool)
    requires Core(s) && s.running == p != NULL && !s.waiting
    requires ctxt.ecx != 0 ==> ctxt.edx <= |data|
    ensures var s' := Transfer(s, p, ctxt, write, data, memOk).sys; Inv(s') && s'.fault == s.fault
  {
    hide Accept, Devices.DevInv, SwitchAway, Enqueue, Queued, Ownership, Transfer;
    TransferCases(s, p, ctxt, write, data, memOk);
    if ScheduleCode(s.devs, ctxt, memOk) == 0 {
      var d, op := DevNo(ctxt.ebx), Op(p, write, ctxt.edx, data[..ctxt.edx]);
      BlockingKeeps(s, p, ctxt, d, op);
      SwitchAwayKeeps(Blocking(s, p, ctxt, d, Accept(s.devs[d], op).value));
    }
  }

  // ---------------------------------------------------------------- IDLE and EXIT

  /** IDLE with a ready process: the queues while the next process is in hand. */
  lemma YieldKeeps(s: Sys, next: Ptr, ctxt: Context)
    requires Queued(s, {}) && RunningOk(s) && next in s.procs && s.procs[next].state.exec != Running
    ensures var s' := YieldTo(s, next, ctxt);
            && Queued(s', {next})
            && s' == s.(queues := s'.queues, procs := s'.procs)
            && s'.procs.Keys == s.procs.Keys
            && (forall x :: x in s.procs && x != s.running ==> s'.procs[x] == s.procs[x])
            && (s.running != NULL ==>
                  s'.procs[s.running] == Proc(s.procs[s.running].state.(exec := Ready), ctxt))
  {
    var none: set<Ptr>, r := {}, s.running;
    assert none + {next} == {next};
    DetachKeeps(s, none, next);
    hide Detach;
    if r != NULL {
      var s1 := Detach(s, next);
      var s2 := SetExec(SetContext(s1, r, ctxt), r, Ready);
      assert {next} + {r} - {r} == {next};
      TakeInHand(s1, {next}, r);
      UpdateKeeps(s1, s2, {next} + {r}, r);
      EnqueueKeeps(s2, {next} + {r}, r);
    }
  }

  lemma RunInsteadKeeps(s: Sys, p: Ptr)
    requires Queued(s, {p}) && p in s.procs
    ensures Queued(RunInstead(s, p), {})
  {
    var none: set<Ptr> := {};
    assert {p} - {p} == none;
    var s' := SetExec(s, p, Running);
    UpdateKeeps(s, s', {p}, p);
    LetGo(s', {p}, p);
    SameQueues(s', RunInstead(s, p), none);
  }

  lemma ReadyHead(s: Sys)
    requires Queued(s, {}) && s.queues[0] != []
    ensures var p := s.queues[0][0];
            p in s.procs && s.procs[p].state.exec == Ready && s.procs[p].state.dispatch == Active
  {
    assert QueueOk(s, {}, 0) && Belongs(s, {}, s.queues[0][0], 0);
  }

  /** IDLE without the check of the devices and with a first context already saved. */
  function SwitchTo(s: Sys, ctxt: Context): Sys
    requires s.queues[0] != []
  {
    RunInstead(YieldTo(s, s.queues[0][0], ctxt), s.queues[0][0])
  }

  lemma SwitchToShape(s: Sys, ctxt: Context)
    requires Queued(s, {}) && RunningOk(s) && s.queues[0] != []
    ensures var s', next, r := SwitchTo(s, ctxt), s.queues[0][0], s.running;
            && next in s.procs && s.procs[next].state.exec == Ready && s.procs[next].state.dispatch == Active
            && s' == s.(queues := s'.queues, procs := s'.procs, running := next)
            && s'.procs.Keys == s.procs.Keys && Queued(s', {})
            && (forall x :: x in s.procs && x != next && x != r ==> s'.procs[x] == s.procs[x])
            && s'.procs[next] == s.procs[next].(state := s.procs[next].state.(exec := Running))
            && (r != NULL ==> s'.procs[r] == Proc(s.procs[r].state.(exec := Ready), ctxt))
  {
    hide YieldTo;
    var next := s.queues[0][0];
    ReadyHead(s);
    YieldKeeps(s, next, ctxt);
    hide Queued;
    RunInsteadKeeps(YieldTo(s, next, ctxt), next);
  }

  lemma IdleKeeps(s: Sys, ctxt: Context)
    requires Core(s) && !s.waiting
    ensures Inv(Idle(s, ctxt).sys) && Idle(s, ctxt).sys.fault == s.fault
  {
    hide Devices.DevInv, YieldTo, Queued, RunInstead, Ownership;
    var s1 := s.(original := if s.original.None? then Some(ctxt) else s.original);
    SameQueues(s, s1, {});
    SameOps(s, s1);
    if s.queues[0] != [] {
      SwitchToShape(s1, ctxt);
      var s' := SwitchTo(s1, ctxt);
      assert Idle(s, ctxt).sys == s';
      SameOps(s1, s');
    }
  }

  lemma ExitKeeps(s: Sys, p: Ptr)
    requires Core(s) && s.running == p != NULL && !s.waiting
    ensures Inv(Exit(s, p).sys) && Exit(s, p).sys.fault == s.fault
    ensures s.original.Some? && Exit(s, p).reply.Load?
  {
    hide Devices.DevInv, Dispatch;
    var s1 := s.(procs := s.procs - {p});
    DropKeeps(s, s1, p);
    SameOps(s, s1);
    if s1.queues[0] != [] {
      DispatchKeeps(s1);
    } else {
      var s' := Exit(s, p).sys;
      SameQueues(s1, s', {});
      SameOps(s1, s');
    }
  }

  /** A PCB outside the queues can be freed. */
  lemma DropKeeps(s: Sys, s': Sys, p: Ptr)
    requires Queued(s, {}) && p in s.procs && s.procs[p].state.exec == Running
    requires s'.queues == s.queues && s'.procs == s.procs - {p}
    ensures Queued(s', {})
  {
    var none: set<Ptr> := {};
    assert none + {p} == {p} && {p} - {p} == none;
    TakeInHand(s, none, p);
    DropInHand(s, s', {p}, p);
    LetGo(s', {p}, p);
  }

  lemma DropInHand(s: Sys, s': Sys, hand: set<Ptr>, p: Ptr)
    requires Queued(s, hand) && p in hand
    requires s'.queues == s.queues && s'.procs == s.procs - {p}
    ensures Queued(s', hand)
  {
    forall k: nat | k < 4 ensures QueueOk(s', hand, k) {
      assert QueueOk(s, hand, k);
      assert forall x :: x in s'.queues[k] ==> Belongs(s, hand, x, k);
      assert forall i :: 0 <= i < |s.queues[k]| ==> s.queues[k][i] in s.queues[k];
      assert Pris(s'.procs, s'.queues[k]) == Pris(s.procs, s.queues[k]);
    }
    forall x | x in s'.procs && x !in hand && s'.procs[x].state.exec != Running ensures InAQueue(s', x) {
      assert InAQueue(s, x);
    }
  }
}
