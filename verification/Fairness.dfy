/**
 How long a ready process waits (kernel/sys_call.c:155-180, kernel/pcb.c:54-90).
 */
module Fairness {
  import opened Common
  import opened PcbQueues
  import opened Devices
  import opened Scheduler
  import opened SchedulerInv
  import opened SchedulerRuns

  /** How many processes stand in front of `p` in the active-ready queue. */
  function Ahead(s: Sys, p: Ptr): nat {
    IndexOf(s.queues[0], p)
  }

  function Pri(s: Sys, p: Ptr): nat {
    ProcOf(s.procs, p).state.pri
  }

  function Count(b: bool): nat {
    if b then 1 else 0
  }

  // ---------------------------------------------------------------- positions in the queue

  lemma InsertPushesBack(s: Sys, x: Ptr, p: Ptr)
    requires p in s.queues[0] && x !in s.queues[0]
    requires Ascending(Pris(s.procs, s.queues[0]))
    ensures p in ReadyWith(s, x)
    ensures IndexOf(ReadyWith(s, x), p) <= Ahead(s, p) + Count(Pri(s, x) < Pri(s, p))
  {
    var q, k, i := s.queues[0], InsertIndex(Pris(s.procs, s.queues[0]), Pri(s, x)), Ahead(s, p);
    var r := ReadyWith(s, x);
    var pris := Pris(s.procs, q);
    assert k <= i ==> Pri(s, x) < pris[k] <= pris[i];
    assert r[if i < k then i else i + 1] == p;
    FirstIndex(r, p, if i < k then i else i + 1);
  }

  lemma FirstIndex(q: seq<Ptr>, p: Ptr, i: nat)
    requires i < |q| && q[i] == p
    ensures IndexOf(q, p) <= i
  {
  }

  lemma RemovePullsForward(q: seq<Ptr>, i: nat, p: Ptr)
    requires i < |q| && p in q && q[i] != p
    ensures p in RemoveAt(q, i)
    ensures IndexOf(RemoveAt(q, i), p) <= IndexOf(q, p) - Count(i < IndexOf(q, p))
  {
    var j, r := IndexOf(q, p), RemoveAt(q, i);
    assert r[if j < i then j else j - 1] == p;
    FirstIndex(r, p, if j < i then j else j - 1);
  }

  /** What must hold of the ready queue for the position lemmas. */
  lemma ReadyQueueFacts(s: Sys, p: Ptr)
    requires Queued(s, {}) && p in s.queues[0]
    ensures Belongs(s, {}, p, 0) && Ascending(Pris(s.procs, s.queues[0])) && Distinct(s.queues[0])
  {
    assert QueueOk(s, {}, 0);
  }

  // ---------------------------------------------------------------- wake-ups

  /** Does the operation finished on device `d` wake an active process of strictly higher priority? */
  predicate WakeBeats(s: Sys, d: nat, p: Ptr)
    requires d < 4
  {
    s.devs[d].event && s.devs[d].ops != [] && !HeadSuspended(s, d) && Pri(s, s.devs[d].ops[0].rq) < Pri(s, p)
  }

  function WakesAhead(s: Sys, n: nat, p: Ptr): nat
    requires n <= 4
  {
    if n == 0 then 0 else WakesAhead(s, n - 1, p) + Count(WakeBeats(s, n - 1, p))
  }

  lemma CheckIoAhead(s: Sys, d: nat, p: Ptr)
    requires Core(s) && d < 4 && p in s.queues[0]
    ensures p in s.procs && p in CheckIo(s, d).0.procs
    ensures var s' := CheckIo(s, d).0;
            && p in s'.queues[0]
            && Ahead(s', p) <= Ahead(s, p) + Count(WakeBeats(s, d, p))
            && s'.procs[p] == s.procs[p]
  {
    hide Devices.DevInv, CheckIo, Wake, ReadyWith, IndexOf;
    CheckIoShape(s, d);
    ReadyQueueFacts(s, p);
    if s.devs[d].event {
      var x := s.devs[d].ops[0].rq;
      WakeKeeps(s, x, s.devs[d].idx);
      WakeReady(s, x, s.devs[d].idx);
      if s.procs[x].state.dispatch == Active {
        assert x !in s.queues[0] by {
          if x in s.queues[0] {
            ReadyQueueFacts(s, x);
          }
        }
        InsertPushesBack(s, x, p);
      }
    }
  }

  lemma SameBeats(s: Sys, s': Sys, d: nat, p: Ptr)
    requires d < 4 && SameRank(s, s') && s'.devs[d] == s.devs[d] && p in s.procs
    requires s.devs[d].event ==> s.devs[d].ops != [] && s.devs[d].ops[0].rq in s.procs
    ensures WakeBeats(s', d, p) == WakeBeats(s, d, p)
  {
  }

  lemma CheckUpToAhead(s: Sys, n: nat, p: Ptr)
    requires Core(s) && n <= 4 && p in s.queues[0]
    ensures p in s.procs && p in CheckUpTo(s, n).0.procs
    ensures var s' := CheckUpTo(s, n).0;
            && p in s'.queues[0]
            && Ahead(s', p) <= Ahead(s, p) + WakesAhead(s, n, p)
            && s'.procs[p] == s.procs[p]
  {
    ReadyQueueFacts(s, p);
    if n > 0 {
      hide Core, CheckIo, CheckUpTo, Ahead, WakeBeats, SameRank;
      CheckUpToUnfold(s, n);
      var s1 := CheckUpTo(s, n - 1).0;
      CheckUpToAhead(s, n - 1, p);
      CheckUpToKeeps(s, n - 1);
      CheckIoAhead(s1, n - 1, p);
      EventHasLiveHead(s, n - 1);
      CheckUpToReady(s, n - 1);
      SameBeats(s, s1, n - 1, p);
    }
  }

  // ---------------------------------------------------------------- one event

  /** Events that take `p` out of the queue, or put it in anew, on their own account. */
  predicate Targets(e: Event, p: Ptr) {
    (e.SuspendPcb? || e.ResumePcb? || e.SetPriority? || e.CreatePcb? || e.DeletePcb?) && e.p == p
  }

  /** Processes of strictly higher priority than `p` that the event inserts into the ready queue. */
  function Overtakes(s: Sys, e: Event, p: Ptr): nat {
    match e
    case SysReq(ctxt, data, memOk) =>
      WakesAhead(s, 4, p) + Count(ctxt.eax == OP_IDLE && s.running != NULL && Pri(s, s.running) < Pri(s, p))
    case ResumePcb(x) => Count(ProcOf(s.procs, x).state.exec == Ready && Pri(s, x) < Pri(s, p))
    case SetPriority(x, pri) => Count(QueueOf(s.procs, x) == 0 && pri < Pri(s, p))
    case CreatePcb(x, cls, pri, ctxt) => Count(pri < Pri(s, p))
    case _ => 0
  }

  /** The event loads the context of a process it takes from the ready queue. */
  predicate Dispatches(s: Sys, e: Event)
    requires WellFormed(e)
  {
    Step(s, e).reply.Load? && Step(s, e).sys.running != NULL
  }

  /** `p` moved up by a dispatch and down by no more than the processes that overtook it. */
  predicate KeepsPlace(s: Sys, s': Sys, p: Ptr, dispatches: nat, overtakes: nat) {
    && p in s'.queues[0]
    && Ahead(s', p) + dispatches <= Ahead(s, p) + overtakes
  }

  /** The head of the ready queue is dispatched: either `p`, or one from in front of it. */
  lemma DispatchAhead(s: Sys, p: Ptr)
    requires Queued(s, {}) && p in s.queues[0]
    ensures s.queues[0] != [] && Dispatch(s).reply.Load? && Dispatch(s).sys.running == s.queues[0][0]
    ensures s.queues[0][0] == p || KeepsPlace(s, Dispatch(s).sys, p, 1, 0)
  {
    ReadyHead(s);
    var h := s.queues[0][0];
    if h != p {
      assert IndexOf(s.queues[0], h) == 0;
      RemovePullsForward(s.queues[0], 0, p);
    }
  }

  /** The outcome of a step for `p`: dispatched itself, or it kept its place. */
  predicate Fares(s: Sys, o: Outcome, p: Ptr, overtakes: nat) {
    if o.reply.Load? && o.sys.running == p then true
    else KeepsPlace(s, o.sys, p, Count(o.reply.Load? && o.sys.running != NULL), overtakes)
  }

  lemma TransferFares(s: Sys, r: Ptr, ctxt: Context, write: bool, data: seq<byte>, memOk: bool, p: Ptr)
    requires Core(s) && s.running == r != NULL && p in s.queues[0]
    requires ctxt.ecx != 0 ==> ctxt.edx <= |data|
    ensures Fares(s, Transfer(s, r, ctxt, write, data, memOk), p, 0)
  {
    if ScheduleCode(s.devs, ctxt, memOk) == 0 {
      hide Accept, Devices.DevInv, Core, Dispatch, IndexOf;
      var d, op := DevNo(ctxt.ebx), Op(r, write, ctxt.edx, data[..ctxt.edx]);
      BlockingKeeps(s, r, ctxt, d, op);
      var s2 := Blocking(s, r, ctxt, d, Accept(s.devs[d], op).value);
      assert RunningOk(s);
      assert s2.queues[0] == s.queues[0];
      DispatchAhead(s2, p);
    }
  }

  lemma HeadLeaves(s: Sys, p: Ptr)
    requires Queued(s, {}) && p in s.queues[0] && s.queues[0][0] != p
    ensures KeepsPlace(s, Detach(s, s.queues[0][0]), p, 1, 0)
  {
    ReadyHead(s);
    assert IndexOf(s.queues[0], s.queues[0][0]) == 0;
    RemovePullsForward(s.queues[0], 0, p);
  }

  lemma PlaceThenPlace(s: Sys, s1: Sys, s2: Sys, p: Ptr, overtakes: nat)
    requires KeepsPlace(s, s1, p, 1, 0) && KeepsPlace(s1, s2, p, 0, overtakes)
    ensures KeepsPlace(s, s2, p, 1, overtakes)
  {
  }

  /** The yielding process enters while `next`, the old head, is in hand. */
  lemma YieldFares(s: Sys, next: Ptr, ctxt: Context, p: Ptr)
    requires Queued(s, {}) && RunningOk(s) && p in s.queues[0] && next == s.queues[0][0] != p
    ensures KeepsPlace(s, YieldTo(s, next, ctxt), p, 1, Count(s.running != NULL && Pri(s, s.running) < Pri(s, p)))
  {
    hide Detach, IndexOf, KeepsPlace, Queued;
    var r, none: set<Ptr> := s.running, {};
    assert none + {next} == {next};
    ReadyHead(s);
    HeadLeaves(s, p);
    DetachKeeps(s, none, next);
    ReadyQueueFacts(s, p);
    var s1 := Detach(s, next);
    if r != NULL {
      YielderEnters(s1, next, ctxt, p);
      PlaceThenPlace(s, s1, YieldTo(s, next, ctxt), p, Count(Pri(s, r) < Pri(s, p)));
    }
  }

  lemma YielderEnters(s: Sys, next: Ptr, ctxt: Context, p: Ptr)
    requires Queued(s, {next}) && p in s.queues[0] && s.running in s.procs && s.procs[s.running].state.exec == Running
    ensures var r := s.running;
            KeepsPlace(s, Enqueue(SetExec(SetContext(s, r, ctxt), r, Ready), r), p, 0, Count(Pri(s, r) < Pri(s, p)))
  {
    hide IndexOf, Enqueue;
    var r := s.running;
    var s2 := SetExec(SetContext(s, r, ctxt), r, Ready);
    TakeInHand(s, {next}, r);
    UpdateKeeps(s, s2, {next} + {r}, r);
    EnqueueFaresHand(s2, {next} + {r}, r, p);
    assert QueueOk(s, {next}, 0) && Belongs(s, {next}, p, 0);
  }

  lemma IdleFares(s: Sys, ctxt: Context, p: Ptr)
    requires Core(s) && p in s.queues[0]
    ensures Fares(s, Idle(s, ctxt), p, Count(s.running != NULL && Pri(s, s.running) < Pri(s, p)))
  {
    hide Devices.DevInv, YieldTo, Ownership, IndexOf;
    var s1 := s.(original := if s.original.None? then Some(ctxt) else s.original);
    SameQueues(s, s1, {});
    hide Queued;
    if s.queues[0][0] != p {
      YieldFares(s1, s.queues[0][0], ctxt, p);
    }
  }

  lemma ExitFares(s: Sys, r: Ptr, p: Ptr)
    requires Core(s) && s.running == r != NULL && p in s.queues[0]
    ensures Fares(s, Exit(s, r), p, 0)
  {
    hide Devices.DevInv, Dispatch;
    var s1 := s.(procs := s.procs - {r});
    DropKeeps(s, s1, r);
    hide Queued, IndexOf;
    DispatchAhead(s1, p);
  }

  lemma DetachFares(s: Sys, x: Ptr, p: Ptr)
    requires p in s.queues[0] && x != p
    ensures KeepsPlace(s, Detach(s, x), p, 0, 0)
  {
    if QueueOf(s.procs, x) == 0 && x in s.queues[0] {
      RemovePullsForward(s.queues[0], IndexOf(s.queues[0], x), p);
    }
  }

  lemma EnqueueFaresHand(s: Sys, hand: set<Ptr>, x: Ptr, p: Ptr)
    requires Queued(s, hand) && x in hand && p in s.queues[0]
    ensures KeepsPlace(s, Enqueue(s, x), p, 0, Count(QueueOf(s.procs, x) == 0 && Pri(s, x) < Pri(s, p)))
  {
    assert QueueOk(s, hand, 0);
    if QueueOf(s.procs, x) == 0 {
      InsertPushesBack(s, x, p);
    }
  }

  lemma RequeueFares(s: Sys, x: Ptr, state: PcbState, p: Ptr)
    requires Queued(s, {}) && InAQueue(s, x) && p in s.queues[0] && x != p
    ensures KeepsPlace(s, Requeued(s, x, state), p, 0, Count(Selector(state) == 0 && state.pri < Pri(s, p)))
  {
    hide Detach, Queued, IndexOf;
    QueuedIsNotRunning(s, x);
    var none: set<Ptr> := {};
    assert none + {x} == {x};
    DetachKeeps(s, none, x);
    DetachFares(s, x, p);
    var s1 := Detach(s, x);
    var s2 := s1.(procs := s1.procs[x := s.procs[x].(state := state)]);
    UpdateKeeps(s1, s2, {x}, x);
    EnqueueFaresHand(s2, {x}, x, p);
  }

  lemma CreateFares(s: Sys, x: Ptr, proc: Proc, p: Ptr)
    requires Queued(s, {}) && x !in s.procs && p in s.queues[0] && Selector(proc.state) == 0
    ensures KeepsPlace(s, Enqueue(s.(procs := s.procs[x := proc]), x), p, 0, Count(proc.state.pri < Pri(s, p)))
  {
    var none: set<Ptr> := {};
    assert none + {x} == {x};
    ReadyQueueFacts(s, p);
    TakeInHand(s, none, x);
    var s1 := s.(procs := s.procs[x := proc]);
    UpdateKeeps(s, s1, {x}, x);
    EnqueueFaresHand(s1, {x}, x, p);
  }

  lemma CommandFares(s: Sys, e: Event, p: Ptr)
    requires Inv(s) && Enabled(s, e) && p in s.queues[0] && !Targets(e, p)
    requires e.SuspendPcb? || e.ResumePcb? || e.SetPriority? || e.CreatePcb? || e.DeletePcb?
    ensures KeepsPlace(s, Step(s, e).sys, p, 0, Overtakes(s, e, p))
  {
    hide Enqueue, Requeued, SetDispatch, SetPri, Detach, KeepsPlace, Queued;
    KeepsPlaceReflexive(s, p);
    if e.p in s.procs {
      CommandsRequeue(s, e.p, if e.SetPriority? then e.pri else 0);
    }
    match e
    case SuspendPcb(x) => RequeueFares(s, x, s.procs[x].state.(dispatch := Suspended), p);
    case ResumePcb(x) => RequeueFares(s, x, s.procs[x].state.(dispatch := Active), p);
    case SetPriority(x, pri) => RequeueFares(s, x, s.procs[x].state.(pri := pri), p);
    case CreatePcb(x, cls, pri, ctxt) => CreateFares(s, x, Proc(PcbState(Ready, Active, cls, pri), ctxt), p);
    case DeletePcb(x) =>
      DetachFares(s, x, p);
      DropPlace(s, Detach(s, x), x, p);
  }

  lemma KeepsPlaceReflexive(s: Sys, p: Ptr)
    requires p in s.queues[0]
    ensures KeepsPlace(s, s, p, 0, 0)
  {
  }

  lemma DropPlace(s: Sys, s1: Sys, x: Ptr, p: Ptr)
    requires KeepsPlace(s, s1, p, 0, 0)
    ensures KeepsPlace(s, s1.(procs := s1.procs - {x}), p, 0, 0)
  {
  }

  lemma SysCallFares(s: Sys, ctxt: Context, data: seq<byte>, memOk: bool, p: Ptr)
    requires Inv(s) && Enabled(s, SysReq(ctxt, data, memOk)) && p in s.queues[0]
    ensures Fares(s, SysCall(s, ctxt, data, memOk), p, Overtakes(s, SysReq(ctxt, data, memOk), p))
  {
    hide Core, CheckUpTo, Transfer, Idle, Exit, IndexOf, WakesAhead, Fares;
    CheckUpToKeeps(s, 4);
    CheckUpToAhead(s, 4, p);
    var s1, saved := CheckAll(s).0, ctxt.(eax := 0);
    if s1.running != NULL {
      CheckUpToReady(s, 4);
      RunningIsLive(s);
      if ctxt.eax == OP_READ || ctxt.eax == OP_WRITE {
        TransferFares(s1, s1.running, saved, ctxt.eax == OP_WRITE, data, memOk, p);
      } else if ctxt.eax == OP_EXIT {
        ExitFares(s1, s1.running, p);
      }
    }
    if ctxt.eax == OP_IDLE {
      IdleFares(s1, saved, p);
    }
    StayFares(s1, SysCall(s, ctxt, data, memOk), p);
    FaresSince(s, s1, SysCall(s, ctxt, data, memOk), p, WakesAhead(s, 4, p),
               Overtakes(s, SysReq(ctxt, data, memOk), p) - WakesAhead(s, 4, p));
  }

  /** A call that changes no queue and loads nothing. */
  lemma StayFares(s: Sys, o: Outcome, p: Ptr)
    requires p in s.queues[0]
    ensures o.sys.queues == s.queues && !o.reply.Load? ==> Fares(s, o, p, 0)
  {
  }

  lemma FaresSince(s: Sys, s1: Sys, o: Outcome, p: Ptr, k: nat, j: nat)
    requires Ahead(s1, p) <= Ahead(s, p) + k && Fares(s1, o, p, j)
    ensures Fares(s, o, p, k + j)
  {
  }

  lemma RunningIsLive(s: Sys)
    requires Core(s) && s.running != NULL
    ensures s.running in s.procs
  {
  }

  lemma StepFares(s: Sys, e: Event, p: Ptr)
    requires Inv(s) && Enabled(s, e) && p in s.queues[0] && !Targets(e, p)
    ensures Fares(s, Step(s, e), p, Overtakes(s, e, p))
  {
    hide Core, SysCall, KeepsPlace, Detach, Enqueue;
    KeepsPlaceReflexive(s, p);
    match e
    case SysReq(ctxt, data, memOk) => SysCallFares(s, ctxt, data, memOk, p);
    case WaitLoop => assert false;
    case InputIrq(d, b) => DevicePlace(s, Step(s, e).sys, p);
    case OutputIrq(d) => DevicePlace(s, Step(s, e).sys, p);
    case OpenPort(d) => DevicePlace(s, Step(s, e).sys, p);
    case ClosePort(d) => DevicePlace(s, Step(s, e).sys, p);
    case _ => CommandFares(s, e, p);
  }

  lemma DevicePlace(s: Sys, s': Sys, p: Ptr)
    requires s'.queues == s.queues && p in s.queues[0]
    ensures KeepsPlace(s, s', p, 0, 0)
  {
  }

  // ---------------------------------------------------------------- whole runs

  function DispatchCount(s: Sys, es: seq<Event>): nat
    requires Feasible(s, es)
    decreases |es|
  {
    if es == [] then 0 else Count(Dispatches(s, es[0])) + DispatchCount(Step(s, es[0]).sys, es[1..])
  }

  function OvertakeCount(s: Sys, es: seq<Event>, p: Ptr): nat
    requires Feasible(s, es)
    decreases |es|
  {
    if es == [] then 0 else Overtakes(s, es[0], p) + OvertakeCount(Step(s, es[0]).sys, es[1..], p)
  }

  /** At some event of the run `p` is taken from the ready queue and becomes the running process. */
  predicate GetsToRun(s: Sys, es: seq<Event>, p: Ptr)
    requires Feasible(s, es)
    decreases |es|
  {
    es != [] &&
    ((Step(s, es[0]).reply.Load? && Step(s, es[0]).sys.running == p) || GetsToRun(Step(s, es[0]).sys, es[1..], p))
  }

  /**
   Bounded waiting. While nobody suspends, removes or re-prioritises `p`, the dispatches it sees
   before its own are at most those in front of it plus those that overtook it with a strictly
   higher priority.
   */
  lemma {:induction false} BoundedWaiting(s: Sys, es: seq<Event>, p: Ptr)
    requires Inv(s) && p in s.queues[0] && Feasible(s, es)
    requires forall e :: e in es ==> !Targets(e, p)
    ensures GetsToRun(s, es, p) ||
            (p in After(s, es).queues[0] &&
             Ahead(After(s, es), p) + DispatchCount(s, es) <= Ahead(s, p) + OvertakeCount(s, es, p))
    ensures DispatchCount(s, es) > Ahead(s, p) + OvertakeCount(s, es, p) ==> GetsToRun(s, es, p)
    decreases |es|
  {
    if es != [] {
      var o := Step(s, es[0]);
      StepKeeps(s, es[0]);
      StepFares(s, es[0], p);
      hide Inv, Step, Overtakes, Enabled, IndexOf;
      if !(o.reply.Load? && o.sys.running == p) {
        BoundedWaiting(o.sys, es[1..], p);
      }
    }
  }

  // ---------------------------------------------------------------- round robin

  /** Nothing finished on any device. */
  predicate Quiet(s: Sys) {
    forall d :: 0 <= d < 4 ==> !s.devs[d].event
  }

  /** Nobody waits with a strictly higher priority than the running process has. */
  ghost predicate Peers(s: Sys) {
    s.running != NULL && forall p :: p in s.queues[0] ==> Pri(s, s.running) <= Pri(s, p)
  }

  /** How many processes wait in front of those of strictly lower priority than `p`. */
  function Level(s: Sys, q: seq<Ptr>, p: Ptr): (k: nat)
    ensures k <= |q|
  {
    InsertIndex(Pris(s.procs, q), Pri(s, p))
  }

  lemma LevelParts(s: Sys, q: seq<Ptr>, p: Ptr)
    ensures forall i :: 0 <= i < Level(s, q, p) ==> Pri(s, q[i]) <= Pri(s, p)
    ensures Level(s, q, p) < |q| ==> Pri(s, p) < Pri(s, q[Level(s, q, p)])
  {
  }

  lemma LevelIs(s: Sys, q: seq<Ptr>, p: Ptr, k: nat)
    requires k <= |q| && (forall i :: 0 <= i < k ==> Pri(s, q[i]) <= Pri(s, p))
    requires k < |q| ==> Pri(s, p) < Pri(s, q[k])
    ensures Level(s, q, p) == k
  {
    InsertIndexUnique(Pris(s.procs, q), Pri(s, p), k);
  }

  /** The running process and those of its priority that wait, when nobody more urgent does. */
  function Circle(s: Sys): seq<Ptr>
  {
    [s.running] + s.queues[0][..Level(s, s.queues[0], s.running)]
  }

  /** The waiting processes of strictly lower priority. */
  function Tail(s: Sys): seq<Ptr>
  {
    s.queues[0][Level(s, s.queues[0], s.running)..]
  }

  lemma QuietIdle(s: Sys, e: Event)
    requires Inv(s) && Quiet(s) && s.running != NULL && e.SysReq? && e.ctxt.eax == OP_IDLE && !s.fault
    ensures Enabled(s, e) && Step(s, e) == Idle(s, e.ctxt.(eax := 0))
  {
    hide Queued, Ownership, DevicesOk, CheckUpTo, Idle;
    CheckUpToKeeps(s, 4);
  }

  lemma IdleStays(s: Sys, ctxt: Context)
    requires s.queues[0] == []
    ensures var s' := Idle(s, ctxt).sys;
            s'.queues == s.queues && s'.running == s.running && s'.devs == s.devs && s'.procs == s.procs
  {
  }

  /** The yielding process enters behind everybody at least as urgent, while the old head is in hand. */
  lemma YieldOrder(s: Sys, next: Ptr, ctxt: Context)
    requires s.queues[0] != [] && next == s.queues[0][0] && QueueOf(s.procs, next) == 0
    requires s.running != NULL && s.running !in s.queues[0]
    requires ProcOf(s.procs, s.running).state.dispatch == Active
    ensures var r, rest := s.running, s.queues[0][1..];
            YieldTo(s, next, ctxt).queues[0] == InsertAt(rest, Level(s, rest, r), r)
  {
    var r, rest := s.running, s.queues[0][1..];
    HeadDetached(s);
    var s1 := Detach(s, next);
    hide Detach, Level, InsertAt;
    var s2 := SetExec(SetContext(s1, r, ctxt), r, Ready);
    SameLevel(s, s2, rest, r);
    EnqueueAtLevel(s2, r);
  }

  lemma HeadDetached(s: Sys)
    requires s.queues[0] != [] && QueueOf(s.procs, s.queues[0][0]) == 0
    ensures Detach(s, s.queues[0][0]) == s.(queues := s.queues[0 := s.queues[0][1..]])
  {
    assert IndexOf(s.queues[0], s.queues[0][0]) == 0;
    assert RemoveAt(s.queues[0], 0) == s.queues[0][1..];
  }

  lemma EnqueueAtLevel(s: Sys, p: Ptr)
    requires QueueOf(s.procs, p) == 0
    ensures Enqueue(s, p).queues[0] == InsertAt(s.queues[0], Level(s, s.queues[0], p), p)
  {
    hide InsertAt, InsertIndex;
  }

  lemma ReadyMembers(s: Sys)
    requires Queued(s, {})
    ensures forall i :: 0 <= i < |s.queues[0]| ==> Belongs(s, {}, s.queues[0][i], 0)
  {
    assert QueueOk(s, {}, 0);
    assert forall i :: 0 <= i < |s.queues[0]| ==> s.queues[0][i] in s.queues[0];
  }

  lemma IdleIsSwitch(s: Sys, ctxt: Context)
    requires s.queues[0] != []
    ensures var s1 := s.(original := if s.original.None? then Some(ctxt) else s.original);
            && Idle(s, ctxt).sys == SwitchTo(s1, ctxt)
            && SwitchTo(s1, ctxt).queues == YieldTo(s1, s.queues[0][0], ctxt).queues
  {
  }

  lemma IdleSwaps(s: Sys, ctxt: Context)
    requires Inv(s) && s.running != NULL && s.queues[0] != []
    ensures var s', r, rest := Idle(s, ctxt).sys, s.running, s.queues[0][1..];
            && s'.running == s.queues[0][0] && s'.queues[0] == InsertAt(rest, Level(s, rest, r), r)
            && s'.devs == s.devs && forall p :: Pri(s', p) == Pri(s, p)
  {
    hide Devices.DevInv, Ownership, YieldTo, Queued, SwitchTo, InsertAt, Level;
    var next, r := s.queues[0][0], s.running;
    var s1 := s.(original := if s.original.None? then Some(ctxt) else s.original);
    SameQueues(s, s1, {});
    ReadyMembers(s);
    assert forall i :: 0 <= i < |s.queues[0]| ==> s.queues[0][i] in s.queues[0];
    YieldOrder(s1, next, ctxt);
    SameLevel(s, s1, s.queues[0][1..], r);
    SwitchToShape(s1, ctxt);
    IdleIsSwitch(s, ctxt);
  }

  lemma SameLevel(s: Sys, s': Sys, q: seq<Ptr>, p: Ptr)
    requires forall x :: Pri(s', x) == Pri(s, x)
    ensures Level(s', q, p) == Level(s, q, p)
  {
    LevelParts(s, q, p);
    LevelIs(s', q, p, Level(s, q, p));
  }

  /**
   What IDLE does, whatever the priorities: the head runs, and the caller goes behind all that are at least
   as urgent as it is and in front of all that are less.
   */
  lemma IdleOrder(s: Sys, ctxt: Context, data: seq<byte>, memOk: bool)
    requires Inv(s) && Quiet(s) && s.running != NULL && s.queues[0] != [] && !s.fault && ctxt.eax == OP_IDLE
    ensures var e := SysReq(ctxt, data, memOk);
            var s', r, rest := Step(s, e).sys, s.running, s.queues[0][1..];
            var k := Level(s, rest, r);
            && Enabled(s, e) && Inv(s') && Quiet(s') && !s'.fault && (forall p :: Pri(s', p) == Pri(s, p))
            && s'.running == s.queues[0][0] != NULL && s'.queues[0] == rest[..k] + [r] + rest[k..]
            && (forall i :: 0 <= i < k ==> Pri(s, rest[i]) <= Pri(s, r))
            && (forall i :: k <= i < |rest| ==> Pri(s, r) < Pri(s, rest[i]))
  {
    hide Core, Idle, Step, WakesOnlySuspended, Level;
    var e := SysReq(ctxt, data, memOk);
    QuietIdle(s, e);
    StepKeeps(s, e);
    IdleSwaps(s, ctxt.(eax := 0));
    LevelParts(s, s.queues[0][1..], s.running);
    ReadyAscends(s);
    HeadNotNull(s);
  }

  lemma HeadNotNull(s: Sys)
    requires Inv(s) && s.queues[0] != []
    ensures s.queues[0][0] != NULL
  {
    ReadyHead(s);
  }

  lemma ReadyAscends(s: Sys)
    requires Inv(s)
    ensures forall i, j :: 0 <= i < j < |s.queues[0]| ==> Pri(s, s.queues[0][i]) <= Pri(s, s.queues[0][j])
  {
    assert QueueOk(s, {}, 0);
    var pris := Pris(s.procs, s.queues[0]);
    assert forall i :: 0 <= i < |s.queues[0]| ==> pris[i] == Pri(s, s.queues[0][i]);
  }

  /** IDLE passes the processor to the next of its peers, goes behind the last of them, and leaves the rest alone. */
  lemma IdleRotates(s: Sys, ctxt: Context, data: seq<byte>, memOk: bool)
    requires Inv(s) && Quiet(s) && Peers(s) && !s.fault && ctxt.eax == OP_IDLE
    requires s.queues[0] == [] || Level(s, s.queues[0], s.running) > 0
    ensures var e := SysReq(ctxt, data, memOk); var s' := Step(s, e).sys;
            && Enabled(s, e) && Inv(s') && Quiet(s') && Peers(s') && !s'.fault
            && Circle(s') == Circle(s)[1..] + Circle(s)[..1] && Tail(s') == Tail(s)
            && (s'.queues[0] == [] || Level(s', s'.queues[0], s'.running) > 0)
  {
    hide Inv, Idle, Step, WakesOnlySuspended, Level;
    var e := SysReq(ctxt, data, memOk);
    var s', q, r := Step(s, e).sys, s.queues[0], s.running;
    if q == [] {
      QuietIdle(s, e);
      StepKeeps(s, e);
      IdleStays(s, ctxt.(eax := 0));
      SameLevel(s, s', q, r);
    } else {
      IdleOrder(s, ctxt, data, memOk);
      ReadyAscends(s);
      Rotated(s, s', r);
    }
  }

  lemma Rotated(s: Sys, s': Sys, r: Ptr)
    requires s.queues[0] != [] && s.running == r && Peers(s) && Level(s, s.queues[0], r) > 0
    requires forall i, j :: 0 <= i < j < |s.queues[0]| ==> Pri(s, s.queues[0][i]) <= Pri(s, s.queues[0][j])
    requires s'.running == s.queues[0][0] && s'.running != NULL && forall p :: Pri(s', p) == Pri(s, p)
    requires var rest := s.queues[0][1..];
             s'.queues[0] == rest[..Level(s, rest, r)] + [r] + rest[Level(s, rest, r)..]
    ensures Peers(s') && Circle(s') == Circle(s)[1..] + Circle(s)[..1] && Tail(s') == Tail(s)
    ensures Level(s', s'.queues[0], s'.running) == Level(s, s.queues[0], r)
  {
    hide Level, Pri;
    var q, h := s.queues[0], s'.running;
    var m, rest := Level(s, q, r), q[1..];
    LevelParts(s, q, r);
    assert q[0] in q && Pri(s, h) == Pri(s, r);
    LevelIs(s, rest, r, m - 1);
    TurnedQueue(q, m, r);
    var q' := s'.queues[0];
    assert q' == q[1..m] + [r] + q[m..];
    forall x | x in q' ensures Pri(s', h) <= Pri(s', x) {
      assert x in q || x == r;
    }
    forall i | 0 <= i < m ensures Pri(s', q'[i]) <= Pri(s', h) {
      assert q'[i] == if i < m - 1 then q[i + 1] else r;
    }
    LevelIs(s', q', h, m);
  }

  lemma TurnedQueue(q: seq<Ptr>, m: nat, r: Ptr)
    requires 0 < m <= |q|
    ensures var q' := q[1..m] + [r] + q[m..];
            && q[1..][..m - 1] + [r] + q[1..][m - 1..] == q'
            && [q[0]] + q'[..m] == ([r] + q[..m])[1..] + ([r] + q[..m])[..1] && q'[m..] == q[m..]
  {
  }

  /** With only less urgent processes waiting, the next of them runs and the caller becomes head of the queue. */
  lemma IdleAlone(s: Sys, ctxt: Context, data: seq<byte>, memOk: bool)
    requires Inv(s) && Quiet(s) && s.running != NULL && s.queues[0] != [] && !s.fault && ctxt.eax == OP_IDLE
    requires Level(s, s.queues[0], s.running) == 0
    ensures var s' := Step(s, SysReq(ctxt, data, memOk)).sys;
            && s'.running == s.queues[0][0] && Pri(s, s.running) < Pri(s, s'.running)
            && s'.queues[0] == [s.running] + s.queues[0][1..]
  {
    hide Inv, Step, Level;
    var q, r := s.queues[0], s.running;
    LevelParts(s, q, r);
    ReadyAscends(s);
    IdleOrder(s, ctxt, data, memOk);
    LevelIs(s, q[1..], r, 0);
  }

  /** `c` turned by `n` places. */
  function Turned(c: seq<Ptr>, n: nat): seq<Ptr>
    requires c != []
  {
    c[n % |c|..] + c[..n % |c|]
  }

  /**
   Round robin. IDLE alone, called any number of times by whoever runs, cycles through the processes of the
   running one's priority in order; those of lower priority stay where they are.
   */
  lemma {:induction false} RoundRobin(s: Sys, es: seq<Event>)
    requires Inv(s) && Quiet(s) && Peers(s) && !s.fault
    requires s.queues[0] == [] || Level(s, s.queues[0], s.running) > 0
    requires forall i :: 0 <= i < |es| ==> es[i].SysReq? && es[i].ctxt.eax == OP_IDLE
    ensures Feasible(s, es) && Peers(After(s, es))
    ensures Circle(After(s, es)) == Turned(Circle(s), |es|) && Tail(After(s, es)) == Tail(s)
    decreases |es|
  {
    hide Inv, Step, Enabled, Quiet, Peers, Tail, Turned, Level;
    if es == [] {
      TurnedNone(Circle(s));
    } else {
      var e := es[0];
      assert e == SysReq(e.ctxt, e.data, e.memOk);
      IdleRotates(s, e.ctxt, e.data, e.memOk);
      RoundRobin(Step(s, e).sys, es[1..]);
      TurnedOnce(Circle(s), |es| - 1);
    }
  }

  lemma TurnedNone(c: seq<Ptr>)
    requires c != []
    ensures Turned(c, 0) == c
  {
  }

  lemma TurnedOnce(c: seq<Ptr>, n: nat)
    requires c != []
    ensures Turned(c[1..] + c[..1], n) == Turned(c, n + 1)
  {
    var m, c1 := n % |c|, c[1..] + c[..1];
    NextTurn(n, |c|);
    if m + 1 < |c| {
      assert c1[m..] + c1[..m] == c[m + 1..] + c[..m + 1];
    } else {
      assert c1[m..] + c1[..m] == c;
    }
  }

  lemma NextTurn(n: nat, k: nat)
    requires k > 0
    ensures (n + 1) % k == if n % k + 1 < k then n % k + 1 else 0
  {
    var q, r, q', r' := n / k, n % k, (n + 1) / k, (n + 1) % k;
    assert k * q + r == n && k * q' + r' == n + 1;
    if r + 1 < k {
      OneRemainder(k, q, r + 1, q', r');
    } else {
      assert k * (q + 1) == k * q + k;
      OneRemainder(k, q + 1, 0, q', r');
    }
  }

  lemma OneRemainder(k: nat, q: nat, r: nat, q': nat, r': nat)
    requires k * q + r == k * q' + r' && r < k && r' < k
    ensures r == r'
  {
    if q < q' {
      Apart(k, q, q');
    } else if q' < q {
      Apart(k, q', q);
    }
  }

  lemma {:induction false} Apart(k: nat, q: nat, q': nat)
    requires q < q'
    ensures k * q + k <= k * q'
    decreases q'
  {
    if q + 1 < q' {
      Apart(k, q, q' - 1);
    }
    assert k * q' == k * (q' - 1) + k;
  }
}
