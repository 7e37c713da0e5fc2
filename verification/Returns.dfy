/**
 When a system call returns: a ready process is given its own saved context, and the caller of READ or WRITE
 gets the byte count of its own request (kernel/sys_call.c:28-218, kernel/serial.c:507-604).
 */
module Returns {
  import opened Common
  import opened PcbQueues
  import opened Devices
  import opened Scheduler
  import opened SchedulerInv
  import opened SchedulerRuns
  import opened Guarantees

  /** A process that is ready or blocked. */
  predicate Waits(s: Sys, p: Ptr) {
    p in s.procs && s.procs[p].state.exec != Running
  }

  /** `p` still waits, in the same execution state and with the same saved context. */
  predicate Rests(s: Sys, s': Sys, p: Ptr)
    requires Waits(s, p)
  {
    && p in s'.procs
    && s'.procs[p].state.exec == s.procs[p].state.exec && s'.procs[p].ctxt == s.procs[p].ctxt
  }

  /** `p` was ready and runs now, from the context saved for it. */
  predicate Resumes(s: Sys, o: Outcome, p: Ptr)
    requires Waits(s, p)
  {
    s.procs[p].state.exec == Ready && o.sys.running == p && o.reply == Load(s.procs[p].ctxt)
  }

  // ---------------------------------------------------------------- one event, after the check of the devices

  lemma DispatchFate(s: Sys, p: Ptr)
    requires Queued(s, {}) && s.queues[0] != [] && Waits(s, p)
    ensures Rests(s, Dispatch(s).sys, p) || Resumes(s, Dispatch(s), p)
    ensures Dispatch(s).sys.running == s.queues[0][0] && Waits(s, s.queues[0][0])
  {
    hide Queued, Dispatch;
    ReadyHead(s);
    DispatchShape(s);
  }

  lemma SwitchAwayFate(s: Sys, p: Ptr)
    requires Queued(s, {}) && Waits(s, p)
    ensures Rests(s, SwitchAway(s).sys, p) || Resumes(s, SwitchAway(s), p)
  {
    hide Queued, Dispatch;
    if s.queues[0] != [] {
      DispatchFate(s, p);
    }
  }

  lemma TransferFate(s: Sys, ctxt: Context, write: bool, data: seq<byte>, memOk: bool, p: Ptr)
    requires Core(s) && s.running != NULL && Waits(s, p) && (ctxt.ecx != 0 ==> ctxt.edx <= |data|)
    ensures var o := Transfer(s, s.running, ctxt, write, data, memOk); Rests(s, o.sys, p) || Resumes(s, o, p)
  {
    hide Queued, Ownership, DevicesOk, Accept, Transfer, SwitchAway, Blocking, ScheduleCode;
    TransferCases(s, s.running, ctxt, write, data, memOk);
    if ScheduleCode(s.devs, ctxt, memOk) == 0 {
      ScheduledFits(s, ctxt, data, memOk);
      var d, op := DevNo(ctxt.ebx), Op(s.running, write, ctxt.edx, data[..ctxt.edx]);
      BlockingKeeps(s, s.running, ctxt, d, op);
      SwitchAwayFate(Blocking(s, s.running, ctxt, d, Accept(s.devs[d], op).value), p);
    }
  }

  lemma SwitchToFate(s: Sys, ctxt: Context, p: Ptr)
    requires Queued(s, {}) && RunningOk(s) && s.queues[0] != [] && Waits(s, p)
    ensures var s', next := SwitchTo(s, ctxt), s.queues[0][0];
            && s'.running == next && next in s.procs
            && (Rests(s, s', p) || (next == p && s.procs[p].state.exec == Ready))
  {
    hide SwitchTo, Queued;
    SwitchToShape(s, ctxt);
  }

  lemma IdleShape(s: Sys, ctxt: Context)
    ensures var o, s1 := Idle(s, ctxt), s.(original := if s.original.None? then Some(ctxt) else s.original);
            if s.queues[0] == [] then o == Outcome(s1, Stay(0))
            else o == Outcome(SwitchTo(s1, ctxt), Load(ProcOf(s.procs, s.queues[0][0]).ctxt))
  {
    hide YieldTo, RunInstead;
  }

  lemma IdleFate(s: Sys, ctxt: Context, p: Ptr)
    requires Core(s) && Waits(s, p)
    ensures Rests(s, Idle(s, ctxt).sys, p) || Resumes(s, Idle(s, ctxt), p)
  {
    hide Idle, SwitchTo, Queued, Ownership, DevicesOk;
    IdleShape(s, ctxt);
    var s1 := s.(original := if s.original.None? then Some(ctxt) else s.original);
    SameQueues(s, s1, {});
    if s.queues[0] != [] {
      SwitchToFate(s1, ctxt, p);
    }
  }

  lemma ExitFate(s: Sys, p: Ptr)
    requires Core(s) && s.running != NULL && Waits(s, p)
    ensures Rests(s, Exit(s, s.running).sys, p) || Resumes(s, Exit(s, s.running), p)
  {
    CoreParts(s);
    hide Core, Dispatch;
    var s1 := s.(procs := s.procs - {s.running});
    DropKeeps(s, s1, s.running);
    hide Queued;
    if s1.queues[0] != [] {
      DispatchFate(s1, p);
    }
  }

  lemma SysCallFate(s: Sys, e: Event, p: Ptr)
    requires Inv(s) && Enabled(s, e) && e.SysReq? && Waits(CheckAll(s).0, p)
    ensures var s1, o := CheckAll(s).0, Step(s, e); Rests(s1, o.sys, p) || Resumes(s1, o, p)
  {
    hide Core, CheckUpTo, Transfer, Idle, Exit;
    CheckUpToKeeps(s, 4);
    var s1, saved := CheckAll(s).0, e.ctxt.(eax := 0);
    if s1.running != NULL {
      if e.ctxt.eax == OP_READ || e.ctxt.eax == OP_WRITE {
        TransferFate(s1, saved, e.ctxt.eax == OP_WRITE, e.data, e.memOk, p);
      } else if e.ctxt.eax == OP_EXIT {
        ExitFate(s1, p);
      }
    }
    IdleFate(s1, saved, p);
  }

  lemma WaitTurnFate(s: Sys, p: Ptr)
    requires Inv(s) && Waits(CheckAll(s).0, p)
    ensures var s1, o := CheckAll(s).0, Step(s, WaitLoop); Rests(s1, o.sys, p) || Resumes(s1, o, p)
  {
    hide Core, CheckUpTo, Dispatch, Queued;
    CheckUpToCore(s, 4);
    var s1 := CheckAll(s).0;
    CoreParts(s1);
    if s1.queues[0] != [] {
      SameQueues(s1, s1.(waiting := false), {});
      DispatchFate(s1.(waiting := false), p);
    }
  }

  /** Interrupts, ports and PCB commands leave whoever waits alone, up to priority and suspension. */
  lemma OtherFate(s: Sys, e: Event, p: Ptr)
    requires Inv(s) && Enabled(s, e) && !e.SysReq? && !e.WaitLoop? && Waits(s, p) && e != DeletePcb(p)
    ensures Rests(s, Step(s, e).sys, p)
  {
    hide Inv, Input, Output, Enqueue, Detach;
    MovesShapes();
  }

  // ---------------------------------------------------------------- a ready process resumes

  lemma CheckIoRests(s: Sys, d: nat, p: Ptr)
    requires Core(s) && d < 4 && Waits(s, p) && s.procs[p].state.exec == Ready
    ensures Rests(s, CheckIo(s, d).0, p)
  {
    hide Devices.DevInv, Wake, CheckIo, Queued, Ownership, RunningOk;
    CheckIoShape(s, d);
    if s.devs[d].event {
      CoreParts(s);
      WakeKeeps(s, s.devs[d].ops[0].rq, s.devs[d].idx);
    }
  }

  lemma CheckUpToRests(s: Sys, n: nat, p: Ptr)
    requires Core(s) && n <= 4 && Waits(s, p) && s.procs[p].state.exec == Ready
    ensures Rests(s, CheckUpTo(s, n).0, p)
  {
    hide Core, CheckIo, CheckUpTo;
    if n == 0 {
      CheckUpToNone(s);
    } else {
      CheckUpToUnfold(s, n);
      CheckUpToRests(s, n - 1, p);
      CheckUpToCore(s, n - 1);
      CheckIoRests(CheckUpTo(s, n - 1).0, n - 1, p);
    }
  }

  /** Every event lets a ready process rest, or makes it run from exactly the context saved for it. */
  lemma ReadyResumes(s: Sys, e: Event, p: Ptr)
    requires Inv(s) && Enabled(s, e) && p in s.procs && s.procs[p].state.exec == Ready && e != DeletePcb(p)
    ensures Rests(s, Step(s, e).sys, p) || Resumes(s, Step(s, e), p)
  {
    hide Core, CheckUpTo, SysCall, WaitTurn;
    if e.SysReq? {
      CheckUpToRests(s, 4, p);
      SysCallFate(s, e, p);
    } else if e.WaitLoop? {
      CheckUpToRests(s, 4, p);
      WaitTurnFate(s, p);
    } else {
      OtherFate(s, e, p);
    }
  }

  // ---------------------------------------------------------------- READ and WRITE return their own count

  /**
   The call that `p` made as request number `i` of device `d`, with context `c` saved, has not returned: the
   request is outstanding and `p` blocked, or it is finished and its byte count waits for `p` in eax.
   */
  ghost predicate Underway(s: Sys, p: Ptr, d: nat, i: nat, c: Context)
    requires d < 4
  {
    var dev := s.devs[d];
    && i < |dev.accepted| && dev.accepted[i].rq == p && p in s.procs
    && if i < |dev.done| then s.procs[p] == Proc(s.procs[p].state.(exec := Ready), c.(eax := dev.done[i].count))
       else s.procs[p] == Proc(s.procs[p].state.(exec := Blocked), c)
  }

  /** An accepted request that is not finished is in the queue. */
  lemma Queueing(s: Sys, d: nat, i: nat)
    requires Core(s) && d < 4 && |s.devs[d].done| <= i < |s.devs[d].accepted|
    ensures IsOp(s, d, i - |s.devs[d].done|) && Rq(s, d, i - |s.devs[d].done|) == s.devs[d].accepted[i].rq
  {
    DeviceOk(s, d);
    hide Core, Safe, WriteStream, ReadFraming;
    var j := i - |s.devs[d].done|;
    assert SameRequest(s.devs[d].accepted[|s.devs[d].done| + j], s.devs[d].ops[j]);
  }

  lemma OneOpEach(s: Sys, d: nat, i: int, e: nat, j: int)
    requires Core(s) && IsOp(s, d, i) && IsOp(s, e, j) && Rq(s, d, i) == Rq(s, e, j)
    ensures d == e && i == j
  {
  }

  lemma RetireAppends(dev: Dev)
    requires Retire(dev).Some?
    ensures dev.ops != [] && Retire(dev).value.accepted == dev.accepted
    ensures Retire(dev).value.done == dev.done + [Done(dev.ops[0], dev.idx, dev.headStart)]
  {
    RetireLogs(dev);
    RetireDone(dev);
  }

  lemma CheckIoUnderway(s: Sys, k: nat, p: Ptr, d: nat, i: nat, c: Context)
    requires Core(s) && k < 4 && d < 4 && Underway(s, p, d, i, c)
    ensures Underway(CheckIo(s, k).0, p, d, i, c)
  {
    hide Core, Devices.DevInv, Wake, CheckIo, Retire;
    CheckIoShape(s, k);
    if s.devs[k].event {
      CoreParts(s);
      hide Queued;
      RetireAppends(s.devs[k]);
      var q := s.devs[k].ops[0].rq;
      WakeKeeps(s, q, s.devs[k].idx);
      assert IsOp(s, k, 0) && Rq(s, k, 0) == q;
      if |s.devs[d].done| <= i {
        Queueing(s, d, i);
        if p == q {
          OneOpEach(s, d, i - |s.devs[d].done|, k, 0);
        }
      }
    }
  }

  lemma CheckUpToUnderway(s: Sys, n: nat, p: Ptr, d: nat, i: nat, c: Context)
    requires Core(s) && n <= 4 && d < 4 && Underway(s, p, d, i, c)
    ensures Underway(CheckUpTo(s, n).0, p, d, i, c)
  {
    hide Core, CheckIo, CheckUpTo, Underway;
    if n == 0 {
      CheckUpToNone(s);
    } else {
      CheckUpToUnfold(s, n);
      CheckUpToUnderway(s, n - 1, p, d, i, c);
      CheckUpToCore(s, n - 1);
      CheckIoUnderway(CheckUpTo(s, n - 1).0, n - 1, p, d, i, c);
    }
  }

  /** After the check, an event finishes no request, and what was accepted stays accepted. */
  lemma NothingFinishes(s: Sys, e: Event, d: nat)
    requires Inv(s) && Enabled(s, e) && d < 4
    ensures var a, b := Checked(s, e).devs[d], Step(s, e).sys.devs[d]; b.done == a.done && a.accepted <= b.accepted
  {
    hide Core, CheckUpTo, SysCall, WaitTurn, Input, Output, Acceptance;
    LogsStep(s, e, d);
    if e.SysReq? {
      CheckUpToLogs(s, 4, d);
      SysCallDone(s, e, d);
    } else if e.WaitLoop? {
      WaitTurnDevices(s);
    } else {
      OtherDone(s, e, d);
    }
  }

  /** The state that the event finds once the devices are checked, if it checks them. */
  function Checked(s: Sys, e: Event): Sys {
    if e.SysReq? || e.WaitLoop? then CheckAll(s).0 else s
  }

  lemma SysCallDone(s: Sys, e: Event, d: nat)
    requires Inv(s) && Enabled(s, e) && d < 4 && e.SysReq?
    ensures Step(s, e).sys.devs[d].done == CheckAll(s).0.devs[d].done
  {
    hide Core, CheckUpTo, Transfer, Step;
    SysCallDevice(s, e, d);
    CheckUpToCore(s, 4);
    var s1 := CheckAll(s).0;
    if s1.running != NULL && (e.ctxt.eax == OP_READ || e.ctxt.eax == OP_WRITE) {
      TransferStays(s1, e, d);
    }
  }

  lemma OtherDone(s: Sys, e: Event, d: nat)
    requires Inv(s) && Enabled(s, e) && d < 4 && !e.SysReq? && !e.WaitLoop?
    ensures Step(s, e).sys.devs[d].done == s.devs[d].done
  {
    hide Inv, Enqueue, Detach;
    MovesShapes();
  }

  /** What an accepted call waits for, in one event: nothing happens to it, or it returns with its own count. */
  lemma UnderwayStep(s: Sys, e: Event, p: Ptr, d: nat, i: nat, c: Context)
    requires Inv(s) && Enabled(s, e) && d < 4 && Underway(s, p, d, i, c) && e != DeletePcb(p)
    ensures var o := Step(s, e);
            || Underway(o.sys, p, d, i, c)
            || (&& o.sys.running == p && i < |o.sys.devs[d].done|
                && o.reply == Load(c.(eax := o.sys.devs[d].done[i].count)))
  {
    hide Core, CheckUpTo, Step;
    NothingFinishes(s, e, d);
    if e.SysReq? {
      CheckUpToUnderway(s, 4, p, d, i, c);
      SysCallFate(s, e, p);
    } else if e.WaitLoop? {
      CheckUpToUnderway(s, 4, p, d, i, c);
      WaitTurnFate(s, p);
    } else {
      OtherFate(s, e, p);
    }
  }

  lemma BlockedCaller(s: Sys, ctxt: Context, write: bool, data: seq<byte>, memOk: bool)
    requires Core(s) && s.running != NULL && ScheduleCode(s.devs, ctxt, memOk) == 0
    requires ctxt.ecx != 0 ==> ctxt.edx <= |data|
    ensures var s' := Transfer(s, s.running, ctxt, write, data, memOk).sys; var p := s.running;
            && p in s.procs && p in s'.procs
            && s'.procs[p] == Proc(s.procs[p].state.(exec := Blocked), ctxt)
  {
    hide Queued, Ownership, DevicesOk, Accept, Transfer, SwitchAway, Blocking, ScheduleCode;
    var p, d := s.running, DevNo(ctxt.ebx);
    TransferCases(s, p, ctxt, write, data, memOk);
    ScheduledFits(s, ctxt, data, memOk);
    var op := Op(p, write, ctxt.edx, data[..ctxt.edx]);
    BlockingKeeps(s, p, ctxt, d, op);
    var s1 := Blocking(s, p, ctxt, d, Accept(s.devs[d], op).value);
    SwitchAwayFate(s1, p);
    SwitchAwayState(s1, p);
  }

  lemma SwitchAwayState(s: Sys, p: Ptr)
    requires Queued(s, {}) && Waits(s, p) && s.procs[p].state.exec == Blocked
    ensures var s' := SwitchAway(s).sys; p in s'.procs && s'.procs[p] == s.procs[p]
  {
    hide Queued, Dispatch;
    if s.queues[0] != [] {
      ReadyHead(s);
      DispatchShape(s);
    }
  }

  /** An accepted READ or WRITE blocks its caller, whose call is under way from then on. */
  lemma CallStarts(s: Sys, e: Event, d: nat)
    requires Inv(s) && Enabled(s, e) && d < 4 && Acceptance(s, e, d) != []
    ensures Underway(Step(s, e).sys, s.running, d, |s.devs[d].accepted|, e.ctxt.(eax := 0))
  {
    hide Core, CheckUpTo, Transfer, ScheduleCode;
    var s1, c := CheckAll(s).0, e.ctxt.(eax := 0);
    CheckUpToKeeps(s, 4);
    LogsStep(s, e, d);
    CheckUpToLogs(s, 4, d);
    SysCallDone(s, e, d);
    SameAcceptance(s, e, d);
    CodeIgnoresEax(s1.devs, e.ctxt, e.memOk);
    BlockedCaller(s1, c, e.ctxt.eax == OP_WRITE, e.data, e.memOk);
    DeviceOk(s1, d);
  }

  lemma OnlyCallsAccept(s: Sys, e: Event, d: nat)
    requires Acceptance(s, e, d) != []
    ensures e.SysReq?
  {
  }

  // ---------------------------------------------------------------- over runs

  /** The contexts that the events of a run load to make `p` run, in order. */
  function Loads(s: Sys, es: seq<Event>, p: Ptr): seq<Context>
    requires Feasible(s, es)
    decreases |es|
  {
    if es == [] then []
    else
      var o := Step(s, es[0]);
      (if o.reply.Load? && o.sys.running == p then [o.reply.ctxt] else []) + Loads(o.sys, es[1..], p)
  }

  lemma LoadsCons(s: Sys, es: seq<Event>, p: Ptr)
    requires Feasible(s, es) && es != []
    ensures WellFormed(es[0]) && Feasible(Step(s, es[0]).sys, es[1..])
    ensures var o := Step(s, es[0]);
            Loads(s, es, p) == (if o.reply.Load? && o.sys.running == p then [o.reply.ctxt] else []) +
                               Loads(o.sys, es[1..], p)
  {
    hide Step;
  }

  /** What was accepted and what was finished stays so. */
  lemma {:induction false} HistoryGrows(s: Sys, es: seq<Event>, d: nat)
    requires Inv(s) && Feasible(s, es) && d < 4
    ensures s.devs[d].accepted <= After(s, es).devs[d].accepted
    ensures s.devs[d].done <= After(s, es).devs[d].done
    decreases |es|
  {
    if es != [] {
      hide Inv, Step, Enabled, WakesOnlySuspended, Feasible, After, Acceptance;
      FeasibleStep(s, es);
      StepKeeps(s, es[0]);
      LogsStep(s, es[0], d);
      HeadStep(s, es[0], d);
      HistoryGrows(Step(s, es[0]).sys, es[1..], d);
    }
  }

  /**
   As long as nothing was loaded for `p`, its call is under way; the first context loaded for it is the one it
   saved, with the byte count of that very request.
   */
  lemma {:induction false} UnderwayRun(s: Sys, es: seq<Event>, p: Ptr, d: nat, i: nat, c: Context)
    requires Inv(s) && Feasible(s, es) && d < 4 && Underway(s, p, d, i, c) && DeletePcb(p) !in es
    ensures var s', back := After(s, es), Loads(s, es, p);
            if back == [] then Underway(s', p, d, i, c)
            else i < |s'.devs[d].done| && back[0] == c.(eax := s'.devs[d].done[i].count)
    decreases |es|
  {
    if es != [] {
      hide Inv, Step, Enabled, WakesOnlySuspended, Feasible, After, Underway, Loads;
      FeasibleStep(s, es);
      StepKeeps(s, es[0]);
      LoadsCons(s, es, p);
      UnderwayStep(s, es[0], p, d, i, c);
      var o := Step(s, es[0]);
      HistoryGrows(o.sys, es[1..], d);
      if Underway(o.sys, p, d, i, c) {
        NotRunning(o.sys, p, d, i, c);
        UnderwayRun(o.sys, es[1..], p, d, i, c);
      }
    }
  }

  lemma NotRunning(s: Sys, p: Ptr, d: nat, i: nat, c: Context)
    requires Inv(s) && d < 4 && Underway(s, p, d, i, c)
    ensures s.running != p
  {
    CoreParts(s);
    hide Core;
  }

  /**
   Every accepted READ or WRITE returns with its own byte count: unless its caller is deleted, the first context
   loaded for it afterwards is the one it called with, and eax holds the count of the request that this call made.
   */
  lemma CallReturns(s: Sys, e: Event, es: seq<Event>, d: nat)
    requires Inv(s) && Enabled(s, e) && d < 4 && Acceptance(s, e, d) != []
    requires Feasible(Step(s, e).sys, es) && DeletePcb(s.running) !in es
    ensures var s1, p, i, c := Step(s, e).sys, s.running, |s.devs[d].accepted|, e.ctxt.(eax := 0);
            var dev, back := After(s1, es).devs[d], Loads(s1, es, p);
            && i < |dev.accepted| && dev.accepted[i] == Acceptance(s, e, d)[0]
            && if back == [] then Underway(After(s1, es), p, d, i, c)
               else && i < |dev.done| && back[0] == c.(eax := dev.done[i].count)
                    && SameRequest(dev.accepted[i], dev.done[i].op)
  {
    OnlyCallsAccept(s, e, d);
    hide Core, Step, Enabled, WakesOnlySuspended, Feasible, After, Underway, Loads, Acceptance;
    var s1, i := Step(s, e).sys, |s.devs[d].accepted|;
    StepKeeps(s, e);
    LogsStep(s, e, d);
    CallStarts(s, e, d);
    RunKeeps(s1, es);
    HistoryGrows(s1, es, d);
    UnderwayRun(s1, es, s.running, d, i, e.ctxt.(eax := 0));
    DeviceOk(After(s1, es), d);
  }

  /** A running process is given no context, and only its own system call can stop it: a call returns once. */
  lemma ReturnsOnce(s: Sys, e: Event)
    requires Inv(s) && Enabled(s, e) && s.running != NULL
    ensures Step(s, e).reply.Load? ==> Step(s, e).sys.running != s.running
    ensures !e.SysReq? ==> Step(s, e).sys.running == s.running && Step(s, e).reply.Pending?
  {
    hide Core, Queued, SysCall, WaitTurn, Input, Output, Enqueue, Detach;
    CoreParts(s);
    if e.SysReq? {
      LoadsAnother(s, e);
    } else {
      MovesShapes();
    }
  }

  lemma LoadsAnother(s: Sys, e: Event)
    requires Inv(s) && Enabled(s, e) && e.SysReq? && s.running != NULL
    ensures Step(s, e).reply.Load? ==> Step(s, e).sys.running != s.running
  {
    hide Core, CheckUpTo, Transfer, Idle, Exit;
    CheckUpToKeeps(s, 4);
    var s1, c := CheckAll(s).0, e.ctxt.(eax := 0);
    if e.ctxt.eax == OP_READ || e.ctxt.eax == OP_WRITE {
      TransferLoadsAnother(s1, c, e.ctxt.eax == OP_WRITE, e.data, e.memOk);
    } else if e.ctxt.eax == OP_EXIT {
      ExitLoadsAnother(s1);
    }
    IdleLoadsAnother(s1, c);
  }

  lemma TransferLoadsAnother(s: Sys, ctxt: Context, write: bool, data: seq<byte>, memOk: bool)
    requires Core(s) && s.running != NULL && (ctxt.ecx != 0 ==> ctxt.edx <= |data|)
    ensures var o := Transfer(s, s.running, ctxt, write, data, memOk); o.reply.Load? ==> o.sys.running != s.running
  {
    hide Queued, Ownership, DevicesOk, Accept, Transfer, Dispatch, Blocking, ScheduleCode;
    TransferCases(s, s.running, ctxt, write, data, memOk);
    if ScheduleCode(s.devs, ctxt, memOk) == 0 {
      ScheduledFits(s, ctxt, data, memOk);
      var d, op := DevNo(ctxt.ebx), Op(s.running, write, ctxt.edx, data[..ctxt.edx]);
      BlockingKeeps(s, s.running, ctxt, d, op);
      var s1 := Blocking(s, s.running, ctxt, d, Accept(s.devs[d], op).value);
      if s1.queues[0] != [] {
        ReadyHead(s1);
        DispatchShape(s1);
      }
    }
  }

  lemma IdleLoadsAnother(s: Sys, ctxt: Context)
    requires Core(s) && s.running != NULL
    ensures Idle(s, ctxt).reply.Load? ==> Idle(s, ctxt).sys.running != s.running
  {
    hide Idle, SwitchTo, Queued, Ownership, DevicesOk;
    IdleShape(s, ctxt);
    var s1 := s.(original := if s.original.None? then Some(ctxt) else s.original);
    SameQueues(s, s1, {});
    if s.queues[0] != [] {
      SwitchToShape(s1, ctxt);
    }
  }

  lemma ExitLoadsAnother(s: Sys)
    requires Core(s) && s.running != NULL
    ensures Exit(s, s.running).reply.Load? ==> Exit(s, s.running).sys.running != s.running
  {
    CoreParts(s);
    hide Core, Dispatch;
    var s1 := s.(procs := s.procs - {s.running});
    DropKeeps(s, s1, s.running);
    hide Queued;
    if s1.queues[0] != [] {
      ReadyHead(s1);
      DispatchShape(s1);
    }
  }
}
