/**
 What users of the scheduler get on every run: when the wait loop is safe, what is on the wire, what
 a READ returns, and that EXIT always finds somewhere to go.
 */
module Guarantees {
  import opened Common
  import opened PcbQueues
  import opened Devices
  import opened Scheduler
  import opened SchedulerInv
  import opened SchedulerRuns

  // ---------------------------------------------------------------- the wait loop is safe

  /** No suspended process has an operation outstanding. */
  ghost predicate BlockedAreActive(s: Sys) {
    forall p :: p in s.procs && s.procs[p].state.exec == Blocked ==> s.procs[p].state.dispatch == Active
  }

  /** The event does not suspend a process that waits for a device. */
  predicate SparesBlocked(s: Sys, e: Event) {
    e.SuspendPcb? ==> ProcOf(s.procs, e.p).state.exec != Blocked
  }

  /** The same PCBs; dispatch states did not change and nobody became blocked. */
  ghost predicate NoNewBlocked(s: Sys, s': Sys) {
    && s'.procs.Keys == s.procs.Keys
    && forall p :: p in s.procs ==>
         && s'.procs[p].state.dispatch == s.procs[p].state.dispatch
         && (s'.procs[p].state.exec == Blocked ==> s.procs[p].state.exec == Blocked)
  }

  lemma CheckIoBlocks(s: Sys, d: nat)
    requires Core(s) && d < 4
    ensures NoNewBlocked(s, CheckIo(s, d).0)
  {
    hide Devices.DevInv, Wake, CheckIo, Queued, Ownership, RunningOk;
    CheckIoShape(s, d);
    if s.devs[d].event {
      CoreParts(s);
      WakeKeeps(s, s.devs[d].ops[0].rq, s.devs[d].idx);
    }
  }

  lemma NoNewBlockedTransitive(s: Sys, s1: Sys, s2: Sys)
    requires NoNewBlocked(s, s1) && NoNewBlocked(s1, s2)
    ensures NoNewBlocked(s, s2)
  {
  }

  lemma CheckUpToBlocks(s: Sys, n: nat)
    requires Core(s) && n <= 4
    ensures NoNewBlocked(s, CheckUpTo(s, n).0)
  {
    hide Core, Queued, RunningOk, Ownership, DevicesOk, CheckIo, CheckUpTo;
    if n == 0 {
      CheckUpToNone(s);
    } else {
      hide NoNewBlocked;
      var s1 := CheckUpTo(s, n - 1).0;
      CheckUpToUnfold(s, n);
      CheckUpToBlocks(s, n - 1);
      CheckUpToCore(s, n - 1);
      CheckIoBlocks(s1, n - 1);
      NoNewBlockedTransitive(s, s1, CheckIo(s1, n - 1).0);
    }
  }

  lemma DispatchBlocks(s: Sys)
    requires Queued(s, {}) && s.queues[0] != []
    ensures NoNewBlocked(s, Dispatch(s).sys)
  {
    ReadyHead(s);
    hide Detach, Queued;
    DispatchShape(s);
  }

  lemma TransferBlocks(s: Sys, p: Ptr, ctxt: Context, write: bool, data: seq<byte>, memOk: bool)
    requires Core(s) && s.running == p != NULL && !s.waiting && BlockedAreActive(s)
    requires ctxt.ecx != 0 ==> ctxt.edx <= |data|
    ensures BlockedAreActive(Transfer(s, p, ctxt, write, data, memOk).sys)
  {
    hide Accept, Transfer, SwitchAway, Blocking;
    TransferCases(s, p, ctxt, write, data, memOk);
    if ScheduleCode(s.devs, ctxt, memOk) == 0 {
      var d, op := DevNo(ctxt.ebx), Op(p, write, ctxt.edx, data[..ctxt.edx]);
      CoreParts(s);
      BlockingKeeps(s, p, ctxt, d, op);
      hide Core, Queued;
      SwitchAwayBlocks(Blocking(s, p, ctxt, d, Accept(s.devs[d], op).value));
    }
  }

  lemma SwitchAwayBlocks(s: Sys)
    requires Queued(s, {})
    ensures NoNewBlocked(s, SwitchAway(s).sys)
  {
    hide Dispatch;
    if s.queues[0] != [] {
      DispatchBlocks(s);
    }
  }

  lemma IdleBlocks(s: Sys, ctxt: Context)
    requires Core(s) && BlockedAreActive(s)
    ensures BlockedAreActive(Idle(s, ctxt).sys)
  {
    CoreParts(s);
    hide Core, YieldTo, Queued;
    var s1 := s.(original := if s.original.None? then Some(ctxt) else s.original);
    SameQueues(s, s1, {});
    if s.queues[0] != [] {
      SwitchToShape(s1, ctxt);
      assert Idle(s, ctxt).sys == SwitchTo(s1, ctxt);
    }
  }

  lemma ExitBlocks(s: Sys, p: Ptr)
    requires Core(s) && s.running == p != NULL && BlockedAreActive(s)
    ensures BlockedAreActive(Exit(s, p).sys)
  {
    CoreParts(s);
    hide Core, Dispatch;
    var s1 := s.(procs := s.procs - {p});
    DropKeeps(s, s1, p);
    hide Queued;
    if s1.queues[0] != [] {
      DispatchBlocks(s1);
    }
  }

  lemma StillActive(s: Sys, s': Sys)
    requires BlockedAreActive(s) && NoNewBlocked(s, s')
    ensures BlockedAreActive(s')
  {
  }

  lemma SysCallBlocks(s: Sys, e: Event)
    requires Inv(s) && Enabled(s, e) && BlockedAreActive(s) && e.SysReq?
    ensures BlockedAreActive(Step(s, e).sys)
  {
    hide Core, CheckUpTo, Transfer, Idle, Exit, BlockedAreActive, NoNewBlocked;
    CheckUpToKeeps(s, 4);
    CheckUpToBlocks(s, 4);
    var s1, saved := CheckAll(s).0, e.ctxt.(eax := 0);
    StillActive(s, s1);
    if s1.running != NULL {
      if e.ctxt.eax == OP_READ || e.ctxt.eax == OP_WRITE {
        TransferBlocks(s1, s1.running, saved, e.ctxt.eax == OP_WRITE, e.data, e.memOk);
      } else if e.ctxt.eax == OP_EXIT {
        ExitBlocks(s1, s1.running);
      }
    }
    IdleBlocks(s1, saved);
  }

  lemma WaitTurnBlocks(s: Sys)
    requires Inv(s) && BlockedAreActive(s)
    ensures BlockedAreActive(WaitTurn(s).sys)
  {
    CheckUpToKeeps(s, 4);
    CheckUpToBlocks(s, 4);
    var s1 := CheckAll(s).0;
    CoreParts(s1);
    hide Core, CheckUpTo, Dispatch, Queued;
    if s1.queues[0] != [] {
      SameQueues(s1, s1.(waiting := false), {});
      DispatchBlocks(s1.(waiting := false));
    }
  }

  lemma CommandBlocks(s: Sys, e: Event)
    requires Inv(s) && Enabled(s, e) && BlockedAreActive(s) && SparesBlocked(s, e)
    requires e.SuspendPcb? || e.ResumePcb? || e.SetPriority? || e.CreatePcb? || e.DeletePcb?
    ensures BlockedAreActive(Step(s, e).sys)
  {
    hide Inv, Enqueue, Detach, Requeued, SetDispatch, SetPri, BlockedAreActive;
    if e.p in s.procs {
      CommandsRequeue(s, e.p, if e.SetPriority? then e.pri else 0);
      ActiveIfBlocked(s, e.p);
    }
    match e
    case SuspendPcb(p) => RequeuedBlocks(s, p, s.procs[p].state.(dispatch := Suspended));
    case ResumePcb(p) => RequeuedBlocks(s, p, s.procs[p].state.(dispatch := Active));
    case SetPriority(p, pri) => RequeuedBlocks(s, p, s.procs[p].state.(pri := pri));
    case CreatePcb(p, cls, pri, ctxt) => CreatedBlocks(s, p, Proc(PcbState(Ready, Active, cls, pri), ctxt));
    case DeletePcb(p) => DeletedBlocks(s, p);
  }

  lemma ActiveIfBlocked(s: Sys, p: Ptr)
    requires BlockedAreActive(s) && p in s.procs
    ensures s.procs[p].state.exec == Blocked ==> s.procs[p].state.dispatch == Active
  {
  }

  lemma RequeuedBlocks(s: Sys, p: Ptr, state: PcbState)
    requires BlockedAreActive(s) && p in s.procs && (state.exec == Blocked ==> state.dispatch == Active)
    ensures BlockedAreActive(Requeued(s, p, state))
  {
    hide Enqueue, Detach;
    MovesShape(s, p);
    var s1 := Detach(s, p);
    MovesShape(s1.(procs := s1.procs[p := ProcOf(s.procs, p).(state := state)]), p);
  }

  lemma CreatedBlocks(s: Sys, p: Ptr, proc: Proc)
    requires BlockedAreActive(s) && proc.state.exec == Ready
    ensures BlockedAreActive(Enqueue(s.(procs := s.procs[p := proc]), p))
  {
    hide Enqueue;
    MovesShape(s.(procs := s.procs[p := proc]), p);
  }

  lemma DeletedBlocks(s: Sys, p: Ptr)
    requires BlockedAreActive(s)
    ensures var s1 := Detach(s, p); BlockedAreActive(s1.(procs := s1.procs - {p}))
  {
    hide Detach;
    MovesShape(s, p);
  }

  lemma StepBlocks(s: Sys, e: Event)
    requires Inv(s) && Enabled(s, e) && BlockedAreActive(s) && SparesBlocked(s, e)
    ensures BlockedAreActive(Step(s, e).sys)
  {
    hide Inv, SysCall, WaitTurn, Input, Output, Enqueue, IndexOf;
    match e
    case SysReq(ctxt, data, memOk) => SysCallBlocks(s, e);
    case WaitLoop => WaitTurnBlocks(s);
    case InputIrq(d, b) =>
    case OutputIrq(d) =>
    case OpenPort(d) =>
    case ClosePort(d) =>
    case _ => CommandBlocks(s, e);
  }

  /** An operation that is over belongs to a blocked process. */
  lemma ActiveOwnersAreSafe(s: Sys)
    requires Inv(s) && BlockedAreActive(s)
    ensures !WakesOnlySuspended(s)
  {
    if d :| 0 <= d < 4 && s.devs[d].event {
      EventHasLiveHead(s, d);
      CheckIoShape(s, d);
      hide Core;
      assert !HeadSuspended(s, d);
    }
  }

  /** Every suspension in the run spares processes that wait for a device. */
  predicate AllSpare(s: Sys, es: seq<Event>)
    requires Feasible(s, es)
    decreases |es|
  {
    es == [] || (SparesBlocked(s, es[0]) && AllSpare(Step(s, es[0]).sys, es[1..]))
  }

  /** While only processes without outstanding I/O are suspended, the dispatcher never faults. */
  lemma {:induction false} NoFault(s: Sys, es: seq<Event>)
    requires Inv(s) && BlockedAreActive(s) && !s.fault && Feasible(s, es) && AllSpare(s, es)
    ensures !After(s, es).fault
    decreases |es|
  {
    if es != [] {
      FeasibleStep(s, es);
      StepKeeps(s, es[0]);
      StepBlocks(s, es[0]);
      ActiveOwnersAreSafe(s);
      hide Inv, Step, Enabled, WakesOnlySuspended, BlockedAreActive;
      NoFault(Step(s, es[0]).sys, es[1..]);
    }
  }

  // ---------------------------------------------------------------- the logs are what happened

  lemma RetireLogs(d: Dev)
    requires Retire(d).Some?
    ensures Retire(d).value.received == d.received && Retire(d).value.accepted == d.accepted
    ensures Retire(d).value.open == d.open
  {
  }

  ghost predicate SameLogs(a: Dev, b: Dev) {
    b.received == a.received && b.accepted == a.accepted && b.open == a.open
  }

  lemma CheckUpToCore(s: Sys, n: nat)
    requires Core(s) && n <= 4
    ensures Core(CheckUpTo(s, n).0)
  {
    hide Core, CheckUpTo;
    CheckUpToKeeps(s, n);
  }

  lemma CheckUpToLogs(s: Sys, n: nat, d: nat)
    requires Core(s) && n <= 4 && d < 4
    ensures SameLogs(s.devs[d], CheckUpTo(s, n).0.devs[d])
  {
    hide Core, CheckUpTo, Retire;
    CheckUpToDevice(s, n, d);
    if Retire(s.devs[d]).Some? {
      RetireLogs(s.devs[d]);
    }
  }

  /** What the event makes device `d` receive. */
  function Arrival(s: Sys, e: Event, d: nat): seq<byte>
    requires d < 4
  {
    if e.InputIrq? && e.d == d && s.devs[d].open then [e.b] else []
  }

  /** What the event makes device `d` accept: the request of the running process, if it passes the checks. */
  function Acceptance(s: Sys, e: Event, d: nat): seq<Op> {
    if && e.SysReq? && (e.ctxt.eax == OP_READ || e.ctxt.eax == OP_WRITE) && s.running != NULL
       && ScheduleCode(s.devs, e.ctxt, e.memOk) == 0 && DevNo(e.ctxt.ebx) == d && e.ctxt.edx <= |e.data|
    then [Op(s.running, e.ctxt.eax == OP_WRITE, e.ctxt.edx, e.data[..e.ctxt.edx])]
    else []
  }

  lemma AcceptLogs(d: Dev, op: Op)
    requires Accept(d, op).Some?
    ensures Accept(d, op).value.received == d.received && Accept(d, op).value.accepted == d.accepted + [op]
  {
  }

  lemma SwitchAwayDevices(s: Sys)
    ensures SwitchAway(s).sys.devs == s.devs
  {
  }

  lemma BlockingDevices(s: Sys, p: Ptr, ctxt: Context, d: nat, dev: Dev)
    requires d < 4
    ensures Blocking(s, p, ctxt, d, dev).devs == s.devs[d := dev]
  {
  }

  lemma CodeIgnoresEax(devs: Devs, ctxt: Context, memOk: bool)
    ensures ScheduleCode(devs, ctxt.(eax := 0), memOk) == ScheduleCode(devs, ctxt, memOk)
  {
  }

  lemma TransferLogs(s: Sys, e: Event, d: nat)
    requires Core(s) && s.running != NULL && d < 4 && e.SysReq? && (e.ctxt.ecx != 0 ==> e.ctxt.edx <= |e.data|)
    requires e.ctxt.eax == OP_READ || e.ctxt.eax == OP_WRITE
    ensures var dev := Transfer(s, s.running, e.ctxt.(eax := 0), e.ctxt.eax == OP_WRITE, e.data, e.memOk).sys.devs[d];
            dev.received == s.devs[d].received && dev.accepted == s.devs[d].accepted + Acceptance(s, e, d)
  {
    hide Core, Accept, Transfer, SwitchAway, Blocking, ScheduleCode, Devices.DevInv, DevNo;
    var ctxt, write, r := e.ctxt.(eax := 0), e.ctxt.eax == OP_WRITE, s.running;
    TransferCases(s, r, ctxt, write, e.data, e.memOk);
    CodeIgnoresEax(s.devs, e.ctxt, e.memOk);
    if ScheduleCode(s.devs, ctxt, e.memOk) == 0 {
      ScheduledFits(s, ctxt, e.data, e.memOk);
      var k, op := DevNo(ctxt.ebx), Op(r, write, ctxt.edx, e.data[..ctxt.edx]);
      AcceptSucceeds(s, k, op);
      AcceptLogs(s.devs[k], op);
      BlockingDevices(s, r, ctxt, k, Accept(s.devs[k], op).value);
      SwitchAwayDevices(Blocking(s, r, ctxt, k, Accept(s.devs[k], op).value));
    }
  }

  lemma ScheduledFits(s: Sys, ctxt: Context, data: seq<byte>, memOk: bool)
    requires ScheduleCode(s.devs, ctxt, memOk) == 0 && (ctxt.ecx != 0 ==> ctxt.edx <= |data|)
    ensures 0 <= DevNo(ctxt.ebx) < 4 && 0 < ctxt.edx <= |data| && s.devs[DevNo(ctxt.ebx)].open
  {
  }

  lemma AcceptSucceeds(s: Sys, k: nat, op: Op)
    requires Core(s) && k < 4 && s.devs[k].open && Fits(op)
    ensures Accept(s.devs[k], op).Some?
  {
    hide Accept;
    DeviceOk(s, k);
    AcceptKeeps(s.devs[k], op);
  }

  lemma IdleExitDevices(s: Sys, ctxt: Context, p: Ptr)
    ensures Idle(s, ctxt).sys.devs == s.devs && Exit(s, p).sys.devs == s.devs
  {
    hide Detach, Enqueue;
    MovesShapes();
  }

  lemma SysCallLogs(s: Sys, e: Event, d: nat)
    requires Inv(s) && Enabled(s, e) && d < 4 && e.SysReq?
    ensures var dev := Step(s, e).sys.devs[d];
            dev.received == s.devs[d].received && dev.accepted == s.devs[d].accepted + Acceptance(s, e, d)
  {
    hide Core, CheckUpTo, Transfer, Idle, Exit, ScheduleCode, Acceptance;
    var s1 := CheckAll(s).0;
    CheckUpToLogs(s, 4, d);
    CheckUpToKeeps(s, 4);
    SameAcceptance(s, e, d);
    if s1.running != NULL && (e.ctxt.eax == OP_READ || e.ctxt.eax == OP_WRITE) {
      TransferLogs(s1, e, d);
    } else {
      NoAcceptance(s1, e, d);
    }
    IdleExitDevices(s1, e.ctxt.(eax := 0), s1.running);
  }

  lemma NoAcceptance(s: Sys, e: Event, d: nat)
    requires !e.SysReq? || s.running == NULL || (e.ctxt.eax != OP_READ && e.ctxt.eax != OP_WRITE)
    ensures Acceptance(s, e, d) == []
  {
  }

  lemma SameAcceptanceWhere(s: Sys, s': Sys, e: Event, d: nat)
    requires s'.running == s.running && forall k :: 0 <= k < 4 ==> s'.devs[k].open == s.devs[k].open
    ensures Acceptance(s', e, d) == Acceptance(s, e, d)
  {
  }

  /** The check of the devices does not change the verdict on a request. */
  lemma SameAcceptance(s: Sys, e: Event, d: nat)
    requires Inv(s)
    ensures Acceptance(CheckAll(s).0, e, d) == Acceptance(s, e, d)
  {
    hide CheckUpTo, Core, Acceptance;
    CheckUpToKeeps(s, 4);
    forall k | 0 <= k < 4 ensures CheckAll(s).0.devs[k].open == s.devs[k].open {
      CheckUpToLogs(s, 4, k);
    }
    SameAcceptanceWhere(s, CheckAll(s).0, e, d);
  }

  lemma InputLogs(s: Sys, e: Event, d: nat)
    requires Inv(s) && Enabled(s, e) && d < 4 && (e.InputIrq? || e.OutputIrq?)
    ensures var dev := Step(s, e).sys.devs[d];
            dev.received == s.devs[d].received + Arrival(s, e, d) && dev.accepted == s.devs[d].accepted
  {
    hide Queued, RunningOk, Ownership, DevicesOk, Devices.DevInv, Input, Output;
    if s.devs[e.d].open {
      DeviceOk(s, e.d);
      if e.InputIrq? {
        InputKeeps(s.devs[e.d], e.b);
        InputAppends(s.devs[e.d], e.b);
      } else {
        OutputKeeps(s.devs[e.d]);
        OutputAppends(s.devs[e.d]);
      }
    }
  }

  lemma InputAppends(dev: Dev, b: byte)
    requires Input(dev, b).Some?
    ensures Input(dev, b).value.received == dev.received + [b] && Input(dev, b).value.accepted == dev.accepted
  {
  }

  lemma OutputAppends(dev: Dev)
    requires Output(dev).Some?
    ensures Output(dev).value.received == dev.received && Output(dev).value.accepted == dev.accepted
  {
  }

  lemma OtherDevices(s: Sys, e: Event, d: nat)
    requires WellFormed(e) && d < 4 && !e.SysReq? && !e.WaitLoop? && !e.InputIrq? && !e.OutputIrq?
    ensures Step(s, e).sys.devs[d].received == s.devs[d].received
    ensures Step(s, e).sys.devs[d].accepted == s.devs[d].accepted
  {
    hide Enqueue, Detach;
    MovesShapes();
  }

  lemma WaitTurnDevices(s: Sys)
    ensures WaitTurn(s).sys.devs == CheckAll(s).0.devs
  {
    hide CheckUpTo;
  }

  /** Every event appends to the two logs exactly what it brings, and nothing else. */
  lemma LogsStep(s: Sys, e: Event, d: nat)
    requires Inv(s) && Enabled(s, e) && d < 4
    ensures var dev := Step(s, e).sys.devs[d];
            && dev.received == s.devs[d].received + Arrival(s, e, d)
            && dev.accepted == s.devs[d].accepted + Acceptance(s, e, d)
  {
    hide SysCall, WaitTurn, CheckUpTo, Core, Enqueue, Detach, Acceptance;
    if !e.SysReq? {
      NoAcceptance(s, e, d);
    }
    match e
    case SysReq(ctxt, data, memOk) => SysCallLogs(s, e, d);
    case WaitLoop =>
      CheckUpToLogs(s, 4, d);
      WaitTurnDevices(s);
    case InputIrq(k, b) => InputLogs(s, e, d);
    case OutputIrq(k) => InputLogs(s, e, d);
    case _ => OtherDevices(s, e, d);
  }

  /** All bytes that arrived on device `d` during the run. */
  function Arrivals(s: Sys, es: seq<Event>, d: nat): seq<byte>
    requires Feasible(s, es) && d < 4
    decreases |es|
  {
    if es == [] then [] else Arrival(s, es[0], d) + Arrivals(Step(s, es[0]).sys, es[1..], d)
  }

  /** All requests that device `d` accepted during the run, in order. */
  function Acceptances(s: Sys, es: seq<Event>, d: nat): seq<Op>
    requires Feasible(s, es) && d < 4
    decreases |es|
  {
    if es == [] then [] else Acceptance(s, es[0], d) + Acceptances(Step(s, es[0]).sys, es[1..], d)
  }

  lemma LogsCons(s: Sys, es: seq<Event>, d: nat)
    requires Feasible(s, es) && d < 4 && es != []
    ensures WellFormed(es[0]) && Feasible(Step(s, es[0]).sys, es[1..])
    ensures Arrivals(s, es, d) == Arrival(s, es[0], d) + Arrivals(Step(s, es[0]).sys, es[1..], d)
    ensures Acceptances(s, es, d) == Acceptance(s, es[0], d) + Acceptances(Step(s, es[0]).sys, es[1..], d)
  {
    hide Step, Arrival, Acceptance;
  }

  lemma {:induction false} LogsRun(s: Sys, es: seq<Event>, d: nat)
    requires Inv(s) && Feasible(s, es) && d < 4
    ensures After(s, es).devs[d].received == s.devs[d].received + Arrivals(s, es, d)
    ensures After(s, es).devs[d].accepted == s.devs[d].accepted + Acceptances(s, es, d)
    decreases |es|
  {
    if es != [] {
      hide Inv, Step, Enabled, Arrival, Acceptance, WakesOnlySuspended, Feasible, After, Arrivals, Acceptances;
      FeasibleStep(s, es);
      LogsCons(s, es, d);
      StepKeeps(s, es[0]);
      LogsStep(s, es[0], d);
      var s1, e, rest := Step(s, es[0]).sys, es[0], es[1..];
      LogsRun(s1, rest, d);
      Associate(s.devs[d].received, Arrival(s, e, d), Arrivals(s1, rest, d));
      Associate(s.devs[d].accepted, Acceptance(s, e, d), Acceptances(s1, rest, d));
    }
  }

  // ---------------------------------------------------------------- what devices do

  /** The bytes of the WRITEs among the requests, in order. */
  function Payload(ops: seq<Op>): seq<byte> {
    if ops == [] then []
    else Payload(ops[..|ops| - 1]) + if ops[|ops| - 1].write then ops[|ops| - 1].buf else []
  }

  lemma {:induction false} WrittenIsPayload(accepted: seq<Op>, done: seq<Done>)
    requires |done| <= |accepted|
    requires forall i :: 0 <= i < |done| ==> SameRequest(accepted[i], done[i].op)
    ensures WrittenBy(done) == Payload(accepted[..|done|])
    decreases |done|
  {
    if done != [] {
      var n := |done| - 1;
      WrittenIsPayload(accepted, done[..n]);
      assert accepted[..n + 1][..n] == accepted[..n];
      assert SameRequest(accepted[n], done[n].op);
    }
  }

  /**
   `dev` works off `asked` in order, and has sent the payload of the finished WRITEs, then the bytes
   of the WRITE in progress up to and including the one in the transmitter, then nothing.
   */
  ghost predicate InOrder(dev: Dev, asked: seq<Op>) {
    && |asked| == |dev.done| + |dev.ops|
    && (forall i :: 0 <= i < |dev.done| ==> SameRequest(asked[i], dev.done[i].op))
    && (forall i :: 0 <= i < |dev.ops| ==> SameRequest(asked[|dev.done| + i], dev.ops[i]))
    && dev.sent == Payload(asked[..|dev.done|]) + InFlight(dev)
    && (dev.ops != [] && dev.ops[0].write ==>
          && InFlight(dev) <= asked[|dev.done|].buf
          && |InFlight(dev)| == if dev.event then dev.ops[0].size else dev.idx + 1)
  }

  lemma DeviceInOrder(dev: Dev)
    requires DevInv(dev)
    ensures InOrder(dev, dev.accepted)
  {
    WrittenIsPayload(dev.accepted, dev.done);
    hide ReadFraming;
    assert dev.ops != [] ==> SameRequest(dev.accepted[|dev.done| + 0], dev.ops[0]);
  }

  lemma RunDevice(es: seq<Event>, d: nat)
    requires Feasible(INITIAL, es) && d < 4
    ensures var dev := After(INITIAL, es).devs[d];
            && DevInv(dev)
            && dev.received == Arrivals(INITIAL, es, d)
            && dev.accepted == Acceptances(INITIAL, es, d)
  {
    hide Core, Feasible, After, Arrivals, Acceptances, DevInv;
    InitiallyInv();
    RunKeeps(INITIAL, es);
    LogsRun(INITIAL, es, d);
    DeviceOk(After(INITIAL, es), d);
  }

  /** On every run, each device serves its requests in acceptance order; no byte is lost, repeated or interleaved. */
  lemma WireOrder(es: seq<Event>, d: nat)
    requires Feasible(INITIAL, es) && d < 4
    ensures InOrder(After(INITIAL, es).devs[d], Acceptances(INITIAL, es, d))
  {
    hide Feasible, After, Acceptances, DevInv, InOrder;
    RunDevice(es, d);
    DeviceInOrder(After(INITIAL, es).devs[d]);
  }

  /**
   A finished READ holds consecutive received bytes that end at the first '\r' or at a full buffer;
   later requests started after them.
   */
  ghost predicate Delivered(dev: Dev, bytes: seq<byte>, i: nat)
    requires i < |dev.done|
  {
    var r := dev.done[i];
    && 1 <= r.count <= r.op.size == |r.op.buf| && r.start + r.count <= |bytes|
    && r.op.buf[..r.count] == bytes[r.start..r.start + r.count]
    && CR !in r.op.buf[..r.count - 1]
    && (r.count == r.op.size || r.op.buf[r.count - 1] == CR)
    && (forall j :: i < j < |dev.done| ==> r.start + r.count <= dev.done[j].start)
  }

  lemma DeviceDelivered(dev: Dev, i: nat)
    requires DevInv(dev) && i < |dev.done| && !dev.done[i].op.write
    ensures Delivered(dev, dev.received, i)
  {
    hide Safe, WriteStream, Fifo;
    assert DoneOk(dev.received, dev.done[i]);
  }

  // ---------------------------------------------------------------- when a request becomes the head

  /** Request number `i`, in acceptance order, is the one being worked on. */
  predicate Heads(dev: Dev, i: nat) {
    dev.ops != [] && |dev.done| == i
  }

  /** Where in the received bytes request `i` began. */
  function StartOf(dev: Dev, i: nat): nat
    requires i < |dev.done| || Heads(dev, i)
  {
    if i < |dev.done| then dev.done[i].start else dev.headStart
  }

  /**
   From `a` to `b` at most the head was finished, and its start was recorded; a head that stays keeps its
   start, and one that is new starts with what arrives next.
   */
  ghost predicate HeadMoves(a: Dev, b: Dev) {
    && |a.done| <= |b.done| <= |a.done| + 1 && b.done[..|a.done|] == a.done
    && (|b.done| > |a.done| ==> a.ops != [] && b.done[|a.done|].start == a.headStart)
    && (a.ops != [] && |b.done| == |a.done| ==> b.ops != [] && b.headStart == a.headStart)
    && (b.ops != [] && !Heads(a, |b.done|) ==> b.headStart == |b.received|)
  }

  /** Nothing was finished, and a head that is new starts with what arrives next. */
  ghost predicate HeadStays(a: Dev, b: Dev) {
    && b.done == a.done && b.received == a.received
    && (a.ops != [] ==> b.ops != [] && b.headStart == a.headStart)
    && (a.ops == [] && b.ops != [] ==> b.headStart == |b.received|)
  }

  lemma MovesThenStays(a: Dev, b: Dev, c: Dev)
    requires HeadMoves(a, b) && HeadStays(b, c)
    ensures HeadMoves(a, c)
  {
  }

  lemma NothingMoves(a: Dev, b: Dev)
    requires b.done == a.done && (b.ops == [] <==> a.ops == []) && b.headStart == a.headStart
    ensures HeadMoves(a, b)
  {
  }

  function Retired(dev: Dev): Dev {
    if dev.event && Retire(dev).Some? then Retire(dev).value else dev
  }

  lemma RetireMoves(dev: Dev)
    requires DevInv(dev)
    ensures HeadMoves(dev, Retired(dev))
  {
    hide WriteStream, ReadFraming, Fifo, RingTake, RingBegin;
    if dev.event && Retire(dev).Some? {
      RetireDone(dev);
      assert Retire(dev).value.done[..|dev.done|] == dev.done;
    }
  }

  lemma CheckIoDevice(s: Sys, k: nat, d: nat)
    requires Core(s) && k < 4 && d < 4
    ensures CheckIo(s, k).0.devs[d] == if k == d then Retired(s.devs[d]) else s.devs[d]
  {
    hide Core, Wake, Retire, CheckIo;
    CheckIoShape(s, k);
  }

  /** The check of the devices retires a finished operation of each device, once. */
  lemma CheckUpToDevice(s: Sys, n: nat, d: nat)
    requires Core(s) && n <= 4 && d < 4
    ensures CheckUpTo(s, n).0.devs[d] == if d < n then Retired(s.devs[d]) else s.devs[d]
  {
    hide Core, Queued, RunningOk, Ownership, DevicesOk, CheckIo, CheckUpTo, Retired;
    if n == 0 {
      CheckUpToNone(s);
    } else {
      CheckUpToUnfold(s, n);
      CheckUpToDevice(s, n - 1, d);
      CheckUpToCore(s, n - 1);
      CheckIoDevice(CheckUpTo(s, n - 1).0, n - 1, d);
    }
  }

  lemma AcceptStays(dev: Dev, op: Op)
    requires Accept(dev, op).Some?
    ensures HeadStays(dev, Accept(dev, op).value)
  {
    hide RingTake, RingBegin;
  }

  lemma TransferStays(s: Sys, e: Event, d: nat)
    requires Core(s) && s.running != NULL && d < 4 && e.SysReq? && (e.ctxt.ecx != 0 ==> e.ctxt.edx <= |e.data|)
    ensures var o := Transfer(s, s.running, e.ctxt.(eax := 0), e.ctxt.eax == OP_WRITE, e.data, e.memOk);
            HeadStays(s.devs[d], o.sys.devs[d])
  {
    hide Core, Accept, Transfer, SwitchAway, Blocking, ScheduleCode, Devices.DevInv, DevNo;
    var ctxt, write, r := e.ctxt.(eax := 0), e.ctxt.eax == OP_WRITE, s.running;
    TransferCases(s, r, ctxt, write, e.data, e.memOk);
    if ScheduleCode(s.devs, ctxt, e.memOk) == 0 {
      ScheduledFits(s, ctxt, e.data, e.memOk);
      var k, op := DevNo(ctxt.ebx), Op(r, write, ctxt.edx, e.data[..ctxt.edx]);
      AcceptSucceeds(s, k, op);
      AcceptStays(s.devs[k], op);
      BlockingDevices(s, r, ctxt, k, Accept(s.devs[k], op).value);
      SwitchAwayDevices(Blocking(s, r, ctxt, k, Accept(s.devs[k], op).value));
    }
  }

  lemma SysCallHead(s: Sys, e: Event, d: nat)
    requires Inv(s) && Enabled(s, e) && d < 4 && e.SysReq?
    ensures HeadMoves(s.devs[d], Step(s, e).sys.devs[d])
  {
    hide Core, CheckUpTo, Transfer, Step, ScheduleCode, HeadMoves, HeadStays, Retired;
    var s1 := CheckAll(s).0;
    DeviceOk(s, d);
    CheckUpToDevice(s, 4, d);
    RetireMoves(s.devs[d]);
    CheckUpToCore(s, 4);
    SysCallDevice(s, e, d);
    if s1.running != NULL && (e.ctxt.eax == OP_READ || e.ctxt.eax == OP_WRITE) {
      TransferStays(s1, e, d);
      MovesThenStays(s.devs[d], s1.devs[d], Step(s, e).sys.devs[d]);
    }
  }

  /** After the check of the devices, only READ and WRITE touch one. */
  lemma SysCallDevice(s: Sys, e: Event, d: nat)
    requires e.SysReq? && d < 4
    ensures var s1 := CheckAll(s).0;
            Step(s, e).sys.devs[d] ==
            if s1.running != NULL && (e.ctxt.eax == OP_READ || e.ctxt.eax == OP_WRITE)
            then Transfer(s1, s1.running, e.ctxt.(eax := 0), e.ctxt.eax == OP_WRITE, e.data, e.memOk).sys.devs[d]
            else s1.devs[d]
  {
    hide CheckUpTo, Transfer, Idle, Exit;
    var s1 := CheckAll(s).0;
    IdleExitDevices(s1, e.ctxt.(eax := 0), s1.running);
  }

  lemma WaitTurnHead(s: Sys, d: nat)
    requires Inv(s) && d < 4
    ensures HeadMoves(s.devs[d], WaitTurn(s).sys.devs[d])
  {
    hide Core, CheckUpTo, WaitTurn, HeadMoves, Retired;
    DeviceOk(s, d);
    CheckUpToDevice(s, 4, d);
    RetireMoves(s.devs[d]);
    WaitTurnDevices(s);
  }

  lemma InterruptHead(s: Sys, e: Event, d: nat)
    requires Inv(s) && Enabled(s, e) && d < 4 && (e.InputIrq? || e.OutputIrq?)
    ensures HeadMoves(s.devs[d], Step(s, e).sys.devs[d])
  {
    hide Queued, RunningOk, Ownership, DevicesOk, Devices.DevInv, Input, Output;
    NothingMoves(s.devs[d], s.devs[d]);
    if s.devs[e.d].open {
      DeviceOk(s, e.d);
      if e.InputIrq? {
        InputKeeps(s.devs[e.d], e.b);
        InputHead(s.devs[e.d], e.b);
      } else {
        OutputKeeps(s.devs[e.d]);
        OutputHead(s.devs[e.d]);
      }
    }
  }

  lemma InputHead(dev: Dev, b: byte)
    requires Input(dev, b).Some?
    ensures HeadMoves(dev, Input(dev, b).value)
  {
    NothingMoves(dev, Input(dev, b).value);
  }

  lemma OutputHead(dev: Dev)
    requires Output(dev).Some?
    ensures HeadMoves(dev, Output(dev).value)
  {
    NothingMoves(dev, Output(dev).value);
  }

  lemma OtherHead(s: Sys, e: Event, d: nat)
    requires WellFormed(e) && d < 4 && !e.SysReq? && !e.WaitLoop? && !e.InputIrq? && !e.OutputIrq?
    ensures HeadMoves(s.devs[d], Step(s, e).sys.devs[d])
  {
    hide Enqueue, Detach;
    MovesShapes();
    NothingMoves(s.devs[d], Step(s, e).sys.devs[d]);
  }

  /** In every event, a device's start mark moves exactly when it gets a new head, to the end of what was received. */
  lemma HeadStep(s: Sys, e: Event, d: nat)
    requires Inv(s) && Enabled(s, e) && d < 4
    ensures HeadMoves(s.devs[d], Step(s, e).sys.devs[d])
  {
    hide SysCall, WaitTurn, CheckUpTo, Core, Enqueue, Detach, HeadMoves;
    match e
    case SysReq(ctxt, data, memOk) => SysCallHead(s, e, d);
    case WaitLoop => WaitTurnHead(s, d);
    case InputIrq(k, b) => InterruptHead(s, e, d);
    case OutputIrq(k) => InterruptHead(s, e, d);
    case _ => OtherHead(s, e, d);
  }

  /** The last event of the first `n` is the one that made request `i` the head of device `d`. */
  predicate BecameHead(es: seq<Event>, n: nat, d: nat, i: nat)
    requires d < 4
  {
    && 0 < n <= |es| && Feasible(INITIAL, es[..n]) && Feasible(INITIAL, es[..n - 1])
    && Heads(After(INITIAL, es[..n]).devs[d], i)
    && !Heads(After(INITIAL, es[..n - 1]).devs[d], i)
  }

  /** A run and its last event. */
  lemma LastEvent(es: seq<Event>)
    requires Feasible(INITIAL, es) && es != []
    ensures var s, e := es[..|es| - 1], es[|es| - 1];
            && Feasible(INITIAL, s) && Inv(After(INITIAL, s))
            && WellFormed(e) && Enabled(After(INITIAL, s), e)
            && After(INITIAL, es) == Step(After(INITIAL, s), e).sys
  {
    hide Inv, Step, Enabled, Feasible, After;
    var last := |es| - 1;
    InitiallyInv();
    FeasiblePrefix(INITIAL, es, last);
    RunKeeps(INITIAL, es[..last]);
    assert es[last..] == [es[last]];
    OneEvent(After(INITIAL, es[..last]), es[last]);
  }

  lemma StartMoves(a: Dev, b: Dev, i: nat)
    requires HeadMoves(a, b) && (i < |b.done| || Heads(b, i))
    ensures i < |a.done| || Heads(a, i) ==> StartOf(b, i) == StartOf(a, i)
    ensures !(i < |a.done| || Heads(a, i)) ==> Heads(b, i) && StartOf(b, i) == |b.received|
  {
    assert i < |a.done| ==> b.done[i] == b.done[..|a.done|][i];
  }

  /** What the first events of a run did does not depend on the last one. */
  lemma BecameEarlier(es: seq<Event>, n: nat, d: nat, i: nat)
    requires d < 4 && es != [] && BecameHead(es[..|es| - 1], n, d, i)
    ensures BecameHead(es, n, d, i) && es[..|es| - 1][..n] == es[..n]
  {
    hide Feasible, After, Heads;
    var es' := es[..|es| - 1];
    assert es'[..n] == es[..n] && es'[..n - 1] == es[..n - 1];
  }

  lemma BecomesNow(es: seq<Event>, d: nat, i: nat)
    requires d < 4 && es != [] && Feasible(INITIAL, es) && Feasible(INITIAL, es[..|es| - 1])
    requires Heads(After(INITIAL, es).devs[d], i) && !Heads(After(INITIAL, es[..|es| - 1]).devs[d], i)
    ensures BecameHead(es, |es|, d, i) && es[..|es|] == es
  {
    hide Feasible, After, Heads;
    assert es[..|es|] == es;
  }

  /** Every request that is being worked on or finished began with the bytes received after it became the head. */
  lemma {:induction false} StartsAsHead(es: seq<Event>, d: nat, i: nat) returns (n: nat)
    requires Feasible(INITIAL, es) && d < 4
    requires var dev := After(INITIAL, es).devs[d]; i < |dev.done| || Heads(dev, i)
    ensures BecameHead(es, n, d, i) && n <= |es|
    ensures StartOf(After(INITIAL, es).devs[d], i) == |Arrivals(INITIAL, es[..n], d)|
    decreases |es|
  {
    n := |es|;
    if es != [] {
      hide Devices.DevInv, Inv, Step, Enabled, Feasible, After, Arrivals, HeadMoves, StartOf, Heads, BecameHead;
      var es', e := es[..|es| - 1], es[|es| - 1];
      LastEvent(es);
      var a, b := After(INITIAL, es').devs[d], After(INITIAL, es).devs[d];
      HeadStep(After(INITIAL, es'), e, d);
      StartMoves(a, b, i);
      if i < |a.done| || Heads(a, i) {
        n := StartsAsHead(es', d, i);
        BecameEarlier(es, n, d, i);
      } else {
        BecomesNow(es, d, i);
        RunDevice(es, d);
      }
    }
  }

  /** Once the head, a request stays it until it is finished. */
  lemma {:induction false} HeadOrDone(es: seq<Event>, n: nat, d: nat, i: nat)
    requires Feasible(INITIAL, es) && n <= |es| && d < 4
    requires Feasible(INITIAL, es[..n]) && Heads(After(INITIAL, es[..n]).devs[d], i)
    ensures Heads(After(INITIAL, es).devs[d], i) || i < |After(INITIAL, es).devs[d].done|
    decreases |es|
  {
    if n == |es| {
      assert es[..n] == es;
    } else {
      hide Inv, Step, Enabled, Feasible, After;
      var es', e := es[..|es| - 1], es[|es| - 1];
      assert es'[..n] == es[..n];
      LastEvent(es);
      HeadOrDone(es', n, d, i);
      HeadStep(After(INITIAL, es'), e, d);
    }
  }

  /** A request becomes the head once only. */
  lemma HeadOnce(es: seq<Event>, m: nat, n: nat, d: nat, i: nat)
    requires d < 4 && m < n && BecameHead(es, m, d, i)
    ensures !BecameHead(es, n, d, i)
  {
    hide Inv, Step, Enabled, Feasible, After;
    if BecameHead(es, n, d, i) {
      var es' := es[..n - 1];
      assert es'[..m] == es[..m] && es[..n][..n - 1] == es';
      HeadOrDone(es', m, d, i);
      LastEvent(es[..n]);
      HeadStep(After(INITIAL, es'), es[n - 1], d);
    }
  }

  /**
   On every run, a finished READ holds exactly the consecutive bytes received since the one event that made it
   the head of its device, framed by '\r', and no byte goes to two READs.
   */
  lemma ReadFrames(es: seq<Event>, d: nat, i: nat)
    requires Feasible(INITIAL, es) && d < 4
    requires i < |After(INITIAL, es).devs[d].done| && !After(INITIAL, es).devs[d].done[i].op.write
    ensures Delivered(After(INITIAL, es).devs[d], Arrivals(INITIAL, es, d), i)
    ensures exists n: nat :: BecameHead(es, n, d, i) &&
              After(INITIAL, es).devs[d].done[i].start == |Arrivals(INITIAL, es[..n], d)|
    ensures forall m: nat, n: nat :: BecameHead(es, m, d, i) && BecameHead(es, n, d, i) ==> m == n
  {
    hide Feasible, After, Arrivals, DevInv, Delivered, BecameHead;
    RunDevice(es, d);
    DeviceDelivered(After(INITIAL, es).devs[d], i);
    var k := StartsAsHead(es, d, i);
    forall m: nat, n: nat | BecameHead(es, m, d, i) && BecameHead(es, n, d, i) ensures m == n {
      if m < n {
        HeadOnce(es, m, n, d, i);
      } else if n < m {
        HeadOnce(es, n, m, d, i);
      }
    }
  }

  /** A wake-up gives the requester, and nobody else, its byte count; the operation joins the finished ones. */
  lemma WakesOwnRequester(s: Sys, d: nat)
    requires Core(s) && d < 4 && s.devs[d].event
    ensures var dev, s' := s.devs[d], CheckIo(s, d).0;
            var p := dev.ops[0].rq;
            && IsBlocked(s, p)
            && s'.procs == s.procs[p := Proc(s.procs[p].state.(exec := Ready), s.procs[p].ctxt.(eax := dev.idx))]
            && InAQueue(s', p)
            && s'.devs[d].done == dev.done + [Done(dev.ops[0], dev.idx, dev.headStart)]
            && (dev.ops[0].write ==> dev.idx == dev.ops[0].size)
  {
    CheckIoShape(s, d);
    DeviceOk(s, d);
    CoreParts(s);
    RetireDone(s.devs[d]);
    WakeKeeps(s, s.devs[d].ops[0].rq, s.devs[d].idx);
    hide Core, Wake, Retire, CheckIo, WriteStream, Fifo, ReadFraming;
  }

  lemma RetireDone(d: Dev)
    requires Retire(d).Some?
    ensures d.ops != [] && Retire(d).value.done == d.done + [Done(d.ops[0], d.idx, d.headStart)]
  {
  }

  /** Blocked PCBs and outstanding operations are in bijection, and the running process has none. */
  lemma OutstandingIo(es: seq<Event>, p: Ptr)
    requires Feasible(INITIAL, es) && p in After(INITIAL, es).procs
    ensures var s := After(INITIAL, es);
            && (IsBlocked(s, p) <==> OwnsOp(s, p))
            && (IsBlocked(s, p) <==> p in s.queues[1] || p in s.queues[3])
            && (forall d, i, e, j :: IsOp(s, d, i) && IsOp(s, e, j) && Rq(s, d, i) == Rq(s, e, j) == p ==>
                  d == e && i == j)
            && (p == s.running ==> !OwnsOp(s, p) && s.original.Some?)
  {
    hide Feasible, After, DevicesOk;
    InitiallyInv();
    RunKeeps(INITIAL, es);
    var s := After(INITIAL, es);
    if IsBlocked(s, p) {
      assert InAQueue(s, p);
    }
    assert QueueOk(s, {}, 1) && QueueOk(s, {}, 3);
    if OwnsOp(s, p) {
      var d, i :| IsOp(s, d, i) && Rq(s, d, i) == p;
      assert IsBlocked(s, Rq(s, d, i));
    }
  }

  /** EXIT always has a context to load: the return marked as never reached is not reached. */
  lemma ExitLoads(s: Sys, ctxt: Context, data: seq<byte>, memOk: bool)
    requires Inv(s) && Enabled(s, SysReq(ctxt, data, memOk)) && ctxt.eax == OP_EXIT
    ensures Step(s, SysReq(ctxt, data, memOk)).reply.Load?
  {
    hide Core, CheckUpTo, Exit;
    CheckUpToKeeps(s, 4);
    var s1 := CheckAll(s).0;
    ExitKeeps(s1, s1.running);
  }
}
