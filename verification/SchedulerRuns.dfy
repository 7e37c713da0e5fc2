/**
 What holds over every run of the scheduler: the invariant, the exact fault condition, and who waits
 how long.
 */
module SchedulerRuns {
  import opened Common
  import opened PcbQueues
  import opened Devices
  import opened Scheduler
  import opened SchedulerInv

  // ---------------------------------------------------------------- the wait loop

  /** Some operation finished, and everyone whose operation finished is suspended. */
  predicate WakesOnlySuspended(s: Sys) {
    && (exists d :: 0 <= d < 4 && s.devs[d].event)
    && (forall d :: 0 <= d < 4 && s.devs[d].event ==> HeadSuspended(s, d))
  }

  predicate HeadSuspended(s: Sys, d: nat)
    requires d < 4
  {
    s.devs[d].ops != [] && ProcOf(s.procs, s.devs[d].ops[0].rq).state.dispatch == Suspended
  }

  /** Queue 0 after `p`, which is ready and active, enters it. */
  function ReadyWith(s: Sys, p: Ptr): seq<Ptr> {
    InsertAt(s.queues[0], InsertIndex(Pris(s.procs, s.queues[0]), ProcOf(s.procs, p).state.pri), p)
  }

  lemma DetachOther(s: Sys, p: Ptr)
    requires QueueOf(s.procs, p) != 0
    ensures Detach(s, p).queues[0] == s.queues[0]
  {
  }

  lemma WakeReady(s: Sys, p: Ptr, count: nat)
    requires Queued(s, {}) && IsBlocked(s, p)
    ensures Wake(s, p, count).queues[0] ==
            if s.procs[p].state.dispatch == Active then ReadyWith(s, p) else s.queues[0]
  {
    DetachOther(s, p);
    var s2 := SetContext(SetExec(Detach(s, p), p, Ready), p, s.procs[p].ctxt.(eax := count));
    assert QueueOk(s, {}, 0);
    assert forall i :: 0 <= i < |s.queues[0]| ==> s.queues[0][i] in s.queues[0];
    assert forall x :: x in s.queues[0] ==> Belongs(s, {}, x, 0) && x != p;
    assert Pris(s2.procs, s.queues[0]) == Pris(s.procs, s.queues[0]);
  }

  /** Same PCBs, with the same priority and dispatch state. */
  ghost predicate SameRank(s: Sys, s': Sys) {
    && s'.procs.Keys == s.procs.Keys
    && forall x :: x in s.procs ==>
         && s'.procs[x].state.dispatch == s.procs[x].state.dispatch
         && s'.procs[x].state.pri == s.procs[x].state.pri
  }

  /** A wake-up puts its process in queue 0 exactly when it is active, and leaves dispatch states alone. */
  lemma CheckIoReady(s: Sys, d: nat)
    requires Core(s) && d < 4
    ensures var s' := CheckIo(s, d).0;
            && SameRank(s, s')
            && (s'.queues[0] == [] <==> s.queues[0] == [] && (s.devs[d].event ==> HeadSuspended(s, d)))
  {
    hide Devices.DevInv, CheckIo, Wake, ReadyWith, RunningOk, Ownership, DevicesOk;
    CheckIoShape(s, d);
    if s.devs[d].event {
      var p := s.devs[d].ops[0].rq;
      WakeKeeps(s, p, s.devs[d].idx);
      WakeReady(s, p, s.devs[d].idx);
      ReadyWithNonempty(s, p);
    }
  }

  lemma ReadyWithNonempty(s: Sys, p: Ptr)
    ensures ReadyWith(s, p) != []
  {
  }

  lemma EventHasLiveHead(s: Sys, d: nat)
    requires Core(s) && d < 4
    ensures s.devs[d].event ==> s.devs[d].ops != [] && s.devs[d].ops[0].rq in s.procs
  {
    CheckIoShape(s, d);
  }

  /** The first `n` devices hold no finished operation of an active process. */
  predicate OnlySuspendedUpTo(s: Sys, n: nat)
    requires n <= 4
  {
    n == 0 || (OnlySuspendedUpTo(s, n - 1) && (s.devs[n - 1].event ==> HeadSuspended(s, n - 1)))
  }

  lemma HeadSuspendedKept(s: Sys, s': Sys, d: nat)
    requires d < 4 && SameRank(s, s') && s'.devs[d] == s.devs[d]
    requires s.devs[d].event ==> s.devs[d].ops != [] && s.devs[d].ops[0].rq in s.procs
    ensures s.devs[d].event ==> HeadSuspended(s', d) == HeadSuspended(s, d)
  {
  }

  lemma SameRankTransitive(s: Sys, s1: Sys, s2: Sys)
    requires SameRank(s, s1) && SameRank(s1, s2)
    ensures SameRank(s, s2)
  {
  }

  lemma CheckUpToReady(s: Sys, n: nat)
    requires Core(s) && n <= 4
    ensures SameRank(s, CheckUpTo(s, n).0)
    ensures CheckUpTo(s, n).0.queues[0] == [] <==> s.queues[0] == [] && OnlySuspendedUpTo(s, n)
  {
    if n > 0 {
      hide Core, CheckIo, CheckUpTo, SameRank, HeadSuspended;
      var s1 := CheckUpTo(s, n - 1).0;
      CheckUpToUnfold(s, n);
      CheckUpToReady(s, n - 1);
      CheckUpToKeeps(s, n - 1);
      CheckIoReady(s1, n - 1);
      EventHasLiveHead(s, n - 1);
      HeadSuspendedKept(s, s1, n - 1);
      SameRankTransitive(s, s1, CheckIo(s1, n - 1).0);
    }
  }

  // ---------------------------------------------------------------- one event

  lemma SysCallKeeps(s: Sys, ctxt: Context, data: seq<byte>, memOk: bool)
    requires Inv(s) && Enabled(s, SysReq(ctxt, data, memOk))
    ensures var s' := SysCall(s, ctxt, data, memOk).sys; Inv(s') && !s'.fault
  {
    hide Core, CheckUpTo, Transfer, Idle, Exit;
    CheckUpToKeeps(s, 4);
    var s1, saved := CheckAll(s).0, ctxt.(eax := 0);
    if s1.running != NULL {
      if ctxt.eax == OP_READ || ctxt.eax == OP_WRITE {
        TransferKeeps(s1, s1.running, saved, ctxt.eax == OP_WRITE, data, memOk);
      } else if ctxt.eax == OP_EXIT {
        ExitKeeps(s1, s1.running);
      }
    }
    IdleKeeps(s1, saved);
  }

  lemma OnlySuspendedAll(s: Sys, n: nat)
    requires n <= 4
    ensures OnlySuspendedUpTo(s, n) <==> forall d :: 0 <= d < n && s.devs[d].event ==> HeadSuspended(s, d)
  {
  }

  lemma WaitTurnKeeps(s: Sys)
    requires Inv(s) && Enabled(s, WaitLoop)
    ensures Inv(WaitTurn(s).sys)
    ensures WaitTurn(s).sys.fault <==> WakesOnlySuspended(s)
  {
    hide CheckUpTo, Dispatch, DevicesOk, Queued, Ownership, OnlySuspendedUpTo, SameRank;
    CheckUpToKeeps(s, 4);
    CheckUpToReady(s, 4);
    OnlySuspendedAll(s, 4);
    var (s1, ready) := CheckAll(s);
    var s2 := s1.(waiting := false);
    if ready && s1.queues[0] != [] {
      SameQueues(s1, s2, {});
      SameOps(s1, s2);
      SameDevices(s1, s2);
      DispatchKeeps(s2);
    } else if ready {
      var s3 := s1.(fault := true);
      SameQueues(s1, s3, {});
      SameOps(s1, s3);
      SameDevices(s1, s3);
    }
  }

  /** A step of one device that leaves its requesters alone. */
  lemma DeviceStepKeeps(s: Sys, d: nat, dev: Dev)
    requires Inv(s) && d < 4 && DevInv(dev) && |dev.ops| == |s.devs[d].ops|
    requires forall i :: 0 <= i < |dev.ops| ==> dev.ops[i].rq == s.devs[d].ops[i].rq
    ensures Inv(s.(devs := s.devs[d := dev]))
  {
    hide DevInv;
    var s' := s.(devs := s.devs[d := dev]);
    SameQueues(s, s', {});
    SameOps(s, s');
  }

  lemma InputRequesters(d: Dev, b: byte)
    requires Input(d, b).Some?
    ensures |Input(d, b).value.ops| == |d.ops|
    ensures forall i :: 0 <= i < |d.ops| ==> Input(d, b).value.ops[i].rq == d.ops[i].rq
  {
  }

  lemma InputStepKeeps(s: Sys, d: nat, b: byte)
    requires Inv(s) && Enabled(s, InputIrq(d, b))
    ensures var s' := Step(s, InputIrq(d, b)).sys; Inv(s') && !s'.fault
  {
    if s.devs[d].open {
      hide DevInv, Input, Queued, Ownership;
      DeviceOk(s, d);
      InputKeeps(s.devs[d], b);
      InputRequesters(s.devs[d], b);
      hide Inv;
      DeviceStepKeeps(s, d, Input(s.devs[d], b).value);
    }
  }

  lemma OutputRequesters(d: Dev)
    requires Output(d).Some?
    ensures Output(d).value.ops == d.ops
  {
  }

  lemma OutputStepKeeps(s: Sys, d: nat)
    requires Inv(s) && Enabled(s, OutputIrq(d))
    ensures var s' := Step(s, OutputIrq(d)).sys; Inv(s') && !s'.fault
  {
    if s.devs[d].open {
      hide DevInv, Output, Queued, Ownership;
      DeviceOk(s, d);
      OutputKeeps(s.devs[d]);
      OutputRequesters(s.devs[d]);
      hide Inv;
      DeviceStepKeeps(s, d, Output(s.devs[d]).value);
    }
  }

  lemma PortStepKeeps(s: Sys, e: Event)
    requires Inv(s) && Enabled(s, e) && (e.OpenPort? || e.ClosePort?)
    ensures var s' := Step(s, e).sys; Inv(s') && !s'.fault
  {
    var dev := s.devs[e.d];
    assert DevInv(dev);
    if dev.ops == [] {
      OpenCloseKeep(dev);
      hide Core, DevInv;
      if e.OpenPort? && !dev.open {
        DeviceStepKeeps(s, e.d, Opened(dev));
      } else if e.ClosePort? && dev.open {
        DeviceStepKeeps(s, e.d, Closed(dev));
      }
    }
  }

  // ---------------------------------------------------------------- PCB commands

  function Requeued(s: Sys, p: Ptr, state: PcbState): Sys {
    Reentered(s, p, ProcOf(s.procs, p).(state := state))
  }

  /** Remove, change anything but the execution state, insert again. */
  lemma RequeueKeeps(s: Sys, p: Ptr, state: PcbState)
    requires Inv(s) && InAQueue(s, p) && state.exec == s.procs[p].state.exec && !s.waiting
    ensures Inv(Requeued(s, p, state)) && Requeued(s, p, state).fault == s.fault
  {
    hide DevicesOk, Reentered, Ownership, Queued, RunningOk;
    QueuedIsNotRunning(s, p);
    ReenterKeeps(s, p, s.procs[p].(state := state));
    var s' := Requeued(s, p, state);
    RunningKept(s, s', p);
    SameOps(s, s');
    SameDevices(s, s');
  }

  lemma CommandsRequeue(s: Sys, p: Ptr, pri: nat)
    requires p in s.procs
    ensures var state := s.procs[p].state;
            && SetPri(Detach(s, p), p, pri).procs == s.procs[p := s.procs[p].(state := state.(pri := pri))]
            && Enqueue(SetDispatch(Detach(s, p), p, Suspended), p) == Requeued(s, p, state.(dispatch := Suspended))
            && Enqueue(SetDispatch(Detach(s, p), p, Active), p) == Requeued(s, p, state.(dispatch := Active))
            && Enqueue(SetPri(Detach(s, p), p, pri), p) == Requeued(s, p, state.(pri := pri))
  {
    hide Enqueue;
  }

  lemma QueuedIsNotRunning(s: Sys, p: Ptr)
    requires Queued(s, {}) && InAQueue(s, p)
    ensures s.procs[p].state.exec != Running
  {
    var k := QueueOf(s.procs, p);
    assert QueueOk(s, {}, k) && Belongs(s, {}, p, k);
  }

  lemma CreateKeeps(s: Sys, p: Ptr, proc: Proc)
    requires Inv(s) && !s.waiting && p != NULL && p !in s.procs && proc.state.exec == Ready
    ensures var s' := Enqueue(s.(procs := s.procs[p := proc]), p); Inv(s') && s'.fault == s.fault
  {
    hide Queued, Ownership, DevicesOk, Enqueue;
    var s1 := s.(procs := s.procs[p := proc]);
    CreateQueues(s, p, proc);
    MovesShape(s1, p);
    SameOps(s, Enqueue(s1, p));
    SameDevices(s, Enqueue(s1, p));
  }

  lemma CreateQueues(s: Sys, p: Ptr, proc: Proc)
    requires Queued(s, {}) && p !in s.procs && proc.state.exec == Ready
    ensures Queued(Enqueue(s.(procs := s.procs[p := proc]), p), {})
  {
    hide Queued, Enqueue;
    var none: set<Ptr> := {};
    assert none + {p} == {p} && {p} - {p} == none;
    TakeInHand(s, none, p);
    var s1 := s.(procs := s.procs[p := proc]);
    UpdateKeeps(s, s1, {p}, p);
    EnqueueKeeps(s1, {p}, p);
  }

  lemma DeleteQueues(s: Sys, p: Ptr)
    requires Queued(s, {}) && p in s.procs && s.procs[p].state.exec != Running
    ensures var s1 := Detach(s, p); Queued(s1.(procs := s1.procs - {p}), {})
  {
    var none: set<Ptr> := {};
    assert none + {p} == {p} && {p} - {p} == none;
    DetachKeeps(s, none, p);
    hide Detach, Queued;
    var s1 := Detach(s, p);
    var s2 := s1.(procs := s1.procs - {p});
    DropInHand(s1, s2, {p}, p);
    LetGo(s2, {p}, p);
  }

  lemma DeleteKeeps(s: Sys, p: Ptr)
    requires Inv(s) && !s.waiting && InAQueue(s, p) && s.procs[p].state.exec == Ready
    ensures var s1 := Detach(s, p); Inv(s1.(procs := s1.procs - {p})) && s1.fault == s.fault
  {
    hide DevicesOk, Ownership, IndexOf, Queued;
    DeleteQueues(s, p);
    var s1 := Detach(s, p);
    var s2 := s1.(procs := s1.procs - {p});
    SameOps(s, s2);
    SameDevices(s, s2);
  }

  /** Deleting a user process keeps the invariant exactly when it is ready: a blocked one leaves its operation. */
  lemma DeleteExact(s: Sys, p: Ptr)
    requires Inv(s) && !s.waiting && InAQueue(s, p) && s.procs[p].state.cls == User
    ensures Inv(Step(s, DeletePcb(p)).sys) <==> s.procs[p].state.exec == Ready
  {
    hide Queued, RunningOk, DevicesOk, Detach;
    QueuedIsNotRunning(s, p);
    if s.procs[p].state.exec == Ready {
      DeleteKeeps(s, p);
    } else {
      var s' := Step(s, DeletePcb(p)).sys;
      MovesShape(s, p);
      assert IsBlocked(s, p);
      var d, i :| IsOp(s, d, i) && Rq(s, d, i) == p;
      assert IsOp(s', d, i) && !IsBlocked(s', Rq(s', d, i));
    }
  }

  lemma CommandKeeps(s: Sys, e: Event)
    requires Inv(s) && Enabled(s, e)
    requires e.SuspendPcb? || e.ResumePcb? || e.SetPriority? || e.CreatePcb? || e.DeletePcb?
    ensures var s' := Step(s, e).sys; Inv(s') && !s'.fault
  {
    hide Inv, Enqueue, Requeued, SetDispatch, SetPri, Detach;
    if e.p in s.procs {
      CommandsRequeue(s, e.p, if e.SetPriority? then e.pri else 0);
    }
    match e
    case SuspendPcb(p) => RequeueKeeps(s, p, s.procs[p].state.(dispatch := Suspended));
    case ResumePcb(p) => RequeueKeeps(s, p, s.procs[p].state.(dispatch := Active));
    case SetPriority(p, pri) => RequeueKeeps(s, p, s.procs[p].state.(pri := pri));
    case CreatePcb(p, cls, pri, ctxt) => CreateKeeps(s, p, Proc(PcbState(Ready, Active, cls, pri), ctxt));
    case DeletePcb(p) => DeleteKeeps(s, p);
  }

  /**
   Every enabled event keeps the invariant. The one way to fault is a turn of the wait loop that
   wakes somebody, but nobody active: the dispatcher then takes the head of an empty queue.
   */
  lemma StepKeeps(s: Sys, e: Event)
    requires Inv(s) && Enabled(s, e)
    ensures Inv(Step(s, e).sys)
    ensures Step(s, e).sys.fault <==> e.WaitLoop? && WakesOnlySuspended(s)
  {
    hide Inv, SysCall, WaitTurn, Input, Output, WakesOnlySuspended, Detach, Enqueue;
    match e
    case SysReq(ctxt, data, memOk) => SysCallKeeps(s, ctxt, data, memOk);
    case WaitLoop => WaitTurnKeeps(s);
    case InputIrq(d, b) => InputStepKeeps(s, d, b);
    case OutputIrq(d) => OutputStepKeeps(s, d);
    case OpenPort(d) => PortStepKeeps(s, e);
    case ClosePort(d) => PortStepKeeps(s, e);
    case _ => CommandKeeps(s, e);
  }

  // ---------------------------------------------------------------- whole runs

  lemma ClosedDevOk()
    ensures DevInv(CLOSED_DEV)
  {
  }

  lemma InitiallyInv()
    ensures Inv(INITIAL)
  {
    ClosedDevOk();
    hide DevInv;
    forall k: nat | k < 4 ensures QueueOk(INITIAL, {}, k) {
    }
  }

  lemma FeasibleStep(s: Sys, es: seq<Event>)
    requires Feasible(s, es) && es != []
    ensures WellFormed(es[0]) && Enabled(s, es[0]) && Feasible(Step(s, es[0]).sys, es[1..])
    ensures After(s, es) == After(Step(s, es[0]).sys, es[1..])
  {
    assert WellFormed(es[0]);
    hide Step;
  }

  lemma RunCons(s: Sys, e: Event, es: seq<Event>)
    requires Enabled(s, e) && Feasible(Step(s, e).sys, es)
    ensures Feasible(s, [e] + es) && After(s, [e] + es) == After(Step(s, e).sys, es)
  {
    assert ([e] + es)[1..] == es;
    assert WellFormed(e);
    hide Step;
  }

  /** A run can be cut anywhere. */
  lemma {:induction false} FeasiblePrefix(s: Sys, es: seq<Event>, n: nat)
    requires Feasible(s, es) && n <= |es|
    ensures Feasible(s, es[..n]) && Feasible(After(s, es[..n]), es[n..])
    ensures After(After(s, es[..n]), es[n..]) == After(s, es)
    decreases n
  {
    hide Step, Enabled;
    if n == 0 {
      assert es[0..] == es && es[..0] == [];
    } else {
      hide Feasible, After;
      FeasibleStep(s, es);
      var s1, rest := Step(s, es[0]).sys, es[1..];
      FeasiblePrefix(s1, rest, n - 1);
      RunCons(s, es[0], rest[..n - 1]);
      Slices(es, n);
    }
  }

  lemma Slices(es: seq<Event>, n: nat)
    requires 0 < n <= |es|
    ensures es[..n] == [es[0]] + es[1..][..n - 1] && es[1..][n - 1..] == es[n..]
  {
  }

  /** The invariant holds at the end of every run that starts in it. */
  lemma {:induction false} RunKeeps(s: Sys, es: seq<Event>)
    requires Inv(s) && Feasible(s, es)
    ensures Inv(After(s, es))
    decreases |es|
  {
    if es != [] {
      StepKeeps(s, es[0]);
      hide Inv, Step, Enabled, WakesOnlySuspended;
      RunKeeps(Step(s, es[0]).sys, es[1..]);
    }
  }

  /** From power-on, a run ends in a fault exactly when its last event is the bad turn of the wait loop. */
  lemma RunFault(es: seq<Event>)
    requires Feasible(INITIAL, es) && es != []
    ensures var last := |es| - 1;
            && Feasible(INITIAL, es[..last])
            && (After(INITIAL, es).fault <==>
                  es[last].WaitLoop? && WakesOnlySuspended(After(INITIAL, es[..last])))
  {
    hide Inv, Step, Enabled, WakesOnlySuspended, Feasible, After;
    var last := |es| - 1;
    InitiallyInv();
    FeasiblePrefix(INITIAL, es, last);
    RunKeeps(INITIAL, es[..last]);
    var s := After(INITIAL, es[..last]);
    assert es[last..] == [es[last]];
    OneEvent(s, es[last]);
    StepKeeps(s, es[last]);
  }

  lemma OneEvent(s: Sys, e: Event)
    requires Feasible(s, [e])
    ensures WellFormed(e) && Enabled(s, e) && After(s, [e]) == Step(s, e).sys
  {
    assert WellFormed(e);
    hide Step;
    assert [e][1..] == [];
  }
}
