/**
 When a request is finished: after a number of device interrupts and checks that is known as soon as it is
 accepted (kernel/serial.c:507-604, 693-757, kernel/sys_call.c:15-26).
 */
module Progress {
  import opened Common
  import opened PcbQueues
  import opened Devices
  import opened Scheduler
  import opened SchedulerInv
  import opened SchedulerRuns
  import opened Guarantees
  import opened Returns

  /** Bytes that the operation at the head may still have to transfer. */
  function HeadBytes(dev: Dev): nat {
    if dev.ops == [] || dev.event || dev.ops[0].size < dev.idx then 0 else dev.ops[0].size - dev.idx
  }

  /** Bytes of the given requests. */
  function Bytes(ops: seq<Op>): nat {
    if ops == [] then 0 else ops[0].size + Bytes(ops[1..])
  }

  /** Requests up to number `i`, in acceptance order, that are not finished. */
  function Ahead(dev: Dev, i: nat): seq<Op> {
    var m := i + 1 - |dev.done|;
    if m <= 0 then [] else if m <= |dev.ops| then dev.ops[..m] else dev.ops
  }

  /** Bytes still to be transferred before request `i` is over, and checks of the device until it is finished. */
  function Remaining(dev: Dev, i: nat): nat {
    var ahead := Ahead(dev, i);
    if ahead == [] then 0 else HeadBytes(dev) + Bytes(ahead[1..]) + |ahead|
  }

  /** The event transfers a byte of the operation at the head, or checks the device when that is over. */
  predicate Advances(s: Sys, e: Event, d: nat)
    requires d < 4
  {
    var dev := s.devs[d];
    match e
    case SysReq(ctxt, data, memOk) => dev.event
    case WaitLoop => dev.event
    case InputIrq(k, b) => k == d && dev.open && dev.ops != [] && !dev.ops[0].write && !dev.event
    case OutputIrq(k) => k == d && dev.txInt
    case _ => false
  }

  // ---------------------------------------------------------------- one device

  /** The same requests as far as length goes. */
  ghost predicate SameSizes(a: seq<Op>, b: seq<Op>) {
    |a| == |b| && forall i :: 0 <= i < |a| ==> a[i].size == b[i].size
  }

  lemma {:induction false} SameBytes(a: seq<Op>, b: seq<Op>)
    requires SameSizes(a, b)
    ensures Bytes(a) == Bytes(b)
  {
    if a != [] {
      SameBytes(a[1..], b[1..]);
    }
  }

  /** A request that is accepted and not finished is queued. */
  lemma AheadOf(dev: Dev, i: nat)
    requires Fifo(dev) && |dev.done| <= i < |dev.accepted|
    ensures 0 < i + 1 - |dev.done| <= |dev.ops| && Ahead(dev, i) == dev.ops[..i + 1 - |dev.done|]
  {
  }

  /** Behind the head nothing but payload may change; then the head's own bytes decide. */
  lemma HeadDecides(a: Dev, b: Dev, i: nat)
    requires Fifo(a) && |a.done| <= i < |a.accepted| && b.done == a.done
    requires |a.ops| <= |b.ops| && SameSizes(a.ops, b.ops[..|a.ops|])
    ensures Remaining(b, i) + HeadBytes(a) == Remaining(a, i) + HeadBytes(b)
  {
    AheadOf(a, i);
    var m := i + 1 - |a.done|;
    assert Ahead(b, i) == b.ops[..m];
    assert forall k :: 0 <= k < m ==> b.ops[k] == b.ops[..|a.ops|][k];
    SameBytes(a.ops[..m][1..], b.ops[..m][1..]);
  }

  lemma InputAdvances(dev: Dev, b: byte, i: nat)
    requires DevInv(dev) && dev.ops != [] && |dev.done| <= i < |dev.accepted|
    ensures Input(dev, b).Some?
    ensures Remaining(Input(dev, b).value, i) + (if !dev.ops[0].write && !dev.event then 1 else 0) <= Remaining(dev, i)
  {
    hide WriteStream, ReadFraming, Remaining, Bytes;
    HeadDecides(dev, Input(dev, b).value, i);
  }

  lemma OutputAdvances(dev: Dev, i: nat)
    requires DevInv(dev) && dev.txInt && |dev.done| <= i < |dev.accepted|
    ensures Output(dev).Some? && Remaining(Output(dev).value, i) + 1 <= Remaining(dev, i)
  {
    hide WriteStream, ReadFraming, Remaining, Bytes;
    HeadDecides(dev, Output(dev).value, i);
  }

  lemma AcceptAdvances(dev: Dev, op: Op, i: nat)
    requires DevInv(dev) && Accept(dev, op).Some? && |dev.done| <= i < |dev.accepted|
    ensures Remaining(Accept(dev, op).value, i) == Remaining(dev, i)
  {
    hide WriteStream, ReadFraming, Remaining, Bytes, Safe;
    HeadDecides(dev, Accept(dev, op).value, i);
  }

  /** The next operation starts with nothing transferred, as the ring is empty. */
  lemma RetireStarts(dev: Dev)
    requires DevInv(dev) && dev.event
    ensures Retire(dev).Some?
    ensures var b := Retire(dev).value;
            && |b.done| == |dev.done| + 1 && b.accepted == dev.accepted
            && SameSizes(b.ops, dev.ops[1..])
            && (b.ops != [] ==> !b.event && b.idx == 0 && HeadBytes(b) == b.ops[0].size)
  {
    hide WriteStream, ReadFraming, Fifo;
  }

  lemma RetireAdvances(dev: Dev, i: nat)
    requires DevInv(dev) && dev.event && |dev.done| <= i < |dev.accepted|
    ensures Retire(dev).Some? && Remaining(Retire(dev).value, i) + 1 <= Remaining(dev, i)
  {
    hide DevInv, Retire;
    RetireStarts(dev);
    DevParts(dev);
    AheadOf(dev, i);
    var b, m := Retire(dev).value, i + 1 - |dev.done|;
    if m > 1 {
      assert Ahead(b, i) == b.ops[..m - 1];
      assert SameSizes(b.ops[..m - 1][1..], dev.ops[..m][1..][1..]);
      SameBytes(b.ops[..m - 1][1..], dev.ops[..m][1..][1..]);
      assert b.ops[0].size == dev.ops[..m][1..][0].size;
    }
  }

  lemma DevParts(dev: Dev)
    requires DevInv(dev)
    ensures Fifo(dev) && (dev.event ==> dev.ops != [])
  {
  }

  // ---------------------------------------------------------------- one event

  lemma NothingAhead(dev: Dev, i: nat)
    requires i < |dev.done|
    ensures Remaining(dev, i) == 0
  {
  }

  lemma StillAhead(dev: Dev, i: nat)
    requires DevInv(dev) && |dev.done| <= i < |dev.accepted|
    ensures 0 < Remaining(dev, i) && dev.ops != []
  {
    DevParts(dev);
    AheadOf(dev, i);
  }

  lemma CheckAdvances(s: Sys, d: nat, i: nat)
    requires Inv(s) && d < 4 && |s.devs[d].done| <= i < |s.devs[d].accepted|
    ensures Remaining(CheckAll(s).0.devs[d], i) + (if s.devs[d].event then 1 else 0) <= Remaining(s.devs[d], i)
  {
    hide Core, CheckUpTo, Retire, Remaining, DevInv;
    DeviceOk(s, d);
    CheckUpToDevice(s, 4, d);
    if s.devs[d].event {
      RetireAdvances(s.devs[d], i);
    }
  }

  /** READ and WRITE put their request behind the others. */
  lemma TransferAdds(s: Sys, e: Event, d: nat, i: nat)
    requires Core(s) && s.running != NULL && d < 4 && e.SysReq? && (e.ctxt.ecx != 0 ==> e.ctxt.edx <= |e.data|)
    requires |s.devs[d].done| <= i < |s.devs[d].accepted|
    ensures var o := Transfer(s, s.running, e.ctxt.(eax := 0), e.ctxt.eax == OP_WRITE, e.data, e.memOk);
            Remaining(o.sys.devs[d], i) == Remaining(s.devs[d], i)
  {
    hide Core, Accept, Transfer, SwitchAway, Blocking, ScheduleCode, Devices.DevInv, DevNo, Remaining;
    var ctxt, write, r := e.ctxt.(eax := 0), e.ctxt.eax == OP_WRITE, s.running;
    TransferCases(s, r, ctxt, write, e.data, e.memOk);
    if ScheduleCode(s.devs, ctxt, e.memOk) == 0 {
      ScheduledFits(s, ctxt, e.data, e.memOk);
      var k, op := DevNo(ctxt.ebx), Op(r, write, ctxt.edx, e.data[..ctxt.edx]);
      AcceptSucceeds(s, k, op);
      DeviceOk(s, d);
      if k == d {
        AcceptAdvances(s.devs[d], op, i);
      }
      BlockingDevices(s, r, ctxt, k, Accept(s.devs[k], op).value);
      SwitchAwayDevices(Blocking(s, r, ctxt, k, Accept(s.devs[k], op).value));
    }
  }

  lemma SysCallAdvances(s: Sys, e: Event, d: nat, i: nat)
    requires Inv(s) && Enabled(s, e) && e.SysReq? && d < 4 && |s.devs[d].done| <= i < |s.devs[d].accepted|
    ensures Remaining(Step(s, e).sys.devs[d], i) + (if s.devs[d].event then 1 else 0) <= Remaining(s.devs[d], i)
  {
    hide Core, CheckUpTo, Transfer, Step, Remaining, Acceptance;
    var s1 := CheckAll(s).0;
    CheckAdvances(s, d, i);
    CheckUpToCore(s, 4);
    CheckUpToLogs(s, 4, d);
    SysCallDevice(s, e, d);
    SysCallDone(s, e, d);
    if |s1.devs[d].done| <= i {
      if s1.running != NULL && (e.ctxt.eax == OP_READ || e.ctxt.eax == OP_WRITE) {
        TransferAdds(s1, e, d, i);
      }
    } else {
      NothingAhead(Step(s, e).sys.devs[d], i);
    }
  }

  lemma WaitTurnAdvances(s: Sys, d: nat, i: nat)
    requires Inv(s) && d < 4 && |s.devs[d].done| <= i < |s.devs[d].accepted|
    ensures Remaining(Step(s, WaitLoop).sys.devs[d], i) + (if s.devs[d].event then 1 else 0) <= Remaining(s.devs[d], i)
  {
    hide Core, CheckUpTo, WaitTurn, Remaining;
    CheckAdvances(s, d, i);
    WaitTurnDevices(s);
  }

  lemma InterruptAdvances(s: Sys, e: Event, d: nat, i: nat)
    requires Inv(s) && Enabled(s, e) && (e.InputIrq? || e.OutputIrq?)
    requires d < 4 && |s.devs[d].done| <= i < |s.devs[d].accepted|
    ensures Remaining(Step(s, e).sys.devs[d], i) + (if Advances(s, e, d) then 1 else 0) <= Remaining(s.devs[d], i)
  {
    hide Core, Devices.DevInv, Input, Output, Remaining;
    DeviceOk(s, d);
    StillAhead(s.devs[d], i);
    QueueOpen(s.devs[d]);
    if e.d == d {
      if e.InputIrq? {
        InputAdvances(s.devs[d], e.b, i);
      } else {
        OutputAdvances(s.devs[d], i);
      }
    }
  }

  lemma OtherAdvances(s: Sys, e: Event, d: nat, i: nat)
    requires Inv(s) && Enabled(s, e) && !e.SysReq? && !e.WaitLoop? && !e.InputIrq? && !e.OutputIrq?
    requires d < 4 && |s.devs[d].done| <= i < |s.devs[d].accepted|
    ensures Remaining(Step(s, e).sys.devs[d], i) == Remaining(s.devs[d], i)
  {
    hide Core, Devices.DevInv, Remaining, Enqueue, Detach;
    DeviceOk(s, d);
    StillAhead(s.devs[d], i);
    QueueOpen(s.devs[d]);
    MovesShapes();
  }

  lemma QueueOpen(dev: Dev)
    requires DevInv(dev) && dev.ops != []
    ensures dev.open
  {
  }

  /** An event that advances the device takes one step off what remains for a request; no event adds to it. */
  lemma StepAdvances(s: Sys, e: Event, d: nat, i: nat)
    requires Inv(s) && Enabled(s, e) && d < 4 && |s.devs[d].done| <= i < |s.devs[d].accepted|
    ensures Remaining(Step(s, e).sys.devs[d], i) + (if Advances(s, e, d) then 1 else 0) <= Remaining(s.devs[d], i)
  {
    hide Inv, SysCall, WaitTurn, Enqueue, Detach, Remaining, Input, Output;
    match e
    case SysReq(ctxt, data, memOk) => SysCallAdvances(s, e, d, i);
    case WaitLoop => WaitTurnAdvances(s, d, i);
    case InputIrq(k, b) => InterruptAdvances(s, e, d, i);
    case OutputIrq(k) => InterruptAdvances(s, e, d, i);
    case _ => OtherAdvances(s, e, d, i);
  }

  /** A device with work is never stuck: the next check, the next byte or an enabled interrupt advances it. */
  lemma CanAdvance(s: Sys, d: nat)
    requires Inv(s) && !s.fault && d < 4 && s.devs[d].ops != []
    ensures var dev := s.devs[d];
            if dev.event then
              && (forall e: Event :: e.SysReq? || e.WaitLoop? ==> Advances(s, e, d))
              && Enabled(s, if s.waiting then WaitLoop else SysReq(Context(OP_IDLE, 0, 0, 0), [], true))
            else if dev.ops[0].write then Enabled(s, OutputIrq(d)) && Advances(s, OutputIrq(d), d)
            else forall b :: Enabled(s, InputIrq(d, b)) && Advances(s, InputIrq(d, b), d)
  {
    hide Core, WriteStream, ReadFraming, Fifo;
    DeviceOk(s, d);
  }

  // ---------------------------------------------------------------- over runs

  /** How many events of the run advance device `d`. */
  function Advanced(s: Sys, es: seq<Event>, d: nat): nat
    requires Feasible(s, es) && d < 4
    decreases |es|
  {
    if es == [] then 0
    else (if Advances(s, es[0], d) then 1 else 0) + Advanced(Step(s, es[0]).sys, es[1..], d)
  }

  lemma AdvancedCons(s: Sys, es: seq<Event>, d: nat)
    requires Feasible(s, es) && d < 4 && es != []
    ensures WellFormed(es[0]) && Feasible(Step(s, es[0]).sys, es[1..])
    ensures Advanced(s, es, d) ==
            (if Advances(s, es[0], d) then 1 else 0) + Advanced(Step(s, es[0]).sys, es[1..], d)
  {
    hide Step, Advances;
  }

  lemma {:induction false} RunAdvances(s: Sys, es: seq<Event>, d: nat, i: nat)
    requires Inv(s) && Feasible(s, es) && d < 4 && i < |s.devs[d].accepted|
    requires |After(s, es).devs[d].done| <= i
    ensures Advanced(s, es, d) + Remaining(After(s, es).devs[d], i) <= Remaining(s.devs[d], i)
    decreases |es|
  {
    if es != [] {
      hide Inv, Step, Enabled, WakesOnlySuspended, Feasible, After, Advances, Advanced, Remaining, Acceptance;
      HistoryGrows(s, es, d);
      FeasibleStep(s, es);
      AdvancedCons(s, es, d);
      StepKeeps(s, es[0]);
      LogsStep(s, es[0], d);
      StepAdvances(s, es[0], d, i);
      RunAdvances(Step(s, es[0]).sys, es[1..], d, i);
    }
  }

  /** Request `i` is finished on every run that advances its device as often as remained for it. */
  lemma Finishes(s: Sys, es: seq<Event>, d: nat, i: nat)
    requires Inv(s) && Feasible(s, es) && d < 4 && i < |s.devs[d].accepted|
    requires Remaining(s.devs[d], i) <= Advanced(s, es, d)
    ensures i < |After(s, es).devs[d].done|
  {
    hide Core, Feasible, After, Advanced, Remaining, Devices.DevInv;
    var s' := After(s, es);
    RunKeeps(s, es);
    HistoryGrows(s, es, d);
    if |s'.devs[d].done| <= i {
      RunAdvances(s, es, d, i);
      DeviceOk(s', d);
      StillAhead(s'.devs[d], i);
    }
  }

  /**
   The caller of READ or WRITE gets its answer: once the device has been advanced as often as remained when the
   request was accepted, the caller is ready with its own byte count in eax, or has already returned with it.
   */
  lemma CallFinishes(s: Sys, e: Event, es: seq<Event>, d: nat)
    requires Inv(s) && Enabled(s, e) && d < 4 && Acceptance(s, e, d) != []
    requires Feasible(Step(s, e).sys, es) && DeletePcb(s.running) !in es
    requires Remaining(Step(s, e).sys.devs[d], |s.devs[d].accepted|) <= Advanced(Step(s, e).sys, es, d)
    ensures var s1, p, i, c := Step(s, e).sys, s.running, |s.devs[d].accepted|, e.ctxt.(eax := 0);
            var s', back := After(s1, es), Loads(s1, es, p);
            && i < |s'.devs[d].done|
            && var answer := c.(eax := s'.devs[d].done[i].count);
               if back == [] then p in s'.procs && s'.procs[p].state.exec == Ready && s'.procs[p].ctxt == answer
               else back[0] == answer
  {
    OnlyCallsAccept(s, e, d);
    hide Core, Step, Enabled, WakesOnlySuspended, Feasible, After, Loads, Acceptance, Advanced, Remaining;
    var s1 := Step(s, e).sys;
    StepKeeps(s, e);
    LogsStep(s, e, d);
    Finishes(s1, es, d, |s.devs[d].accepted|);
    CallReturns(s, e, es, d);
  }
}
