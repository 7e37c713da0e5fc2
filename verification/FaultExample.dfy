/**
 A run from power-on after which the wait loop takes the head of an empty ready queue
 (kernel/sys_call.c:77-89 and 130-141): a process is suspended while its WRITE is in progress, the
 last other process blocks, and the WRITE finishes.
 */
module FaultExample {
  import opened Common
  import opened PcbQueues
  import opened Devices
  import opened Scheduler
  import opened SchedulerInv
  import opened SchedulerRuns

  function Other(): Ptr { Addr(1) }
  function Writer(): Ptr { Addr(2) }
  function StartContext(): Context { Context(0, 0, 0, 0) }
  function IdleContext(): Context { Context(OP_IDLE, 0, 0, 0) }
  function WriteContext(): Context { Context(OP_WRITE, 0x3f8, 1, 1) }

  function ProcIn(exec: ExecState, dispatch: DispatchState, cls: ClassState, ctxt: Context): Proc {
    Proc(PcbState(exec, dispatch, cls, 0), ctxt)
  }

  /** Port 0 with the given work; the other three ports are closed. */
  function Ports(d: Dev): Devs {
    [d, CLOSED_DEV, CLOSED_DEV, CLOSED_DEV]
  }

  function WriteOp(p: Ptr): Op {
    Op(p, true, 1, [65])
  }

  /** Port 0 while the WRITE of `Writer()` is at the head; `over` says that its byte was confirmed. */
  function Sending(ops: seq<Op>, over: bool): Dev {
    Dev(true, ops, if over then 1 else 0, over, !over, ZeroRing(), 0, 0, [65], [], 0, ops, [])
  }

  function OpenedPort(): Dev { Opened(CLOSED_DEV) }
  function SavedContext(): Context { IdleContext().(eax := 0) }
  function AskedContext(): Context { WriteContext().(eax := 0) }

  function State1(): Sys {
    Sys([[Other()], [], [], []],
        map[Other() := ProcIn(Ready, Active, System, StartContext())],
        NULL, None, INITIAL.devs, false, false)
  }

  function State2(): Sys {
    Sys([[Other(), Writer()], [], [], []],
        map[Other() := ProcIn(Ready, Active, System, StartContext()),
            Writer() := ProcIn(Ready, Active, User, StartContext())],
        NULL, None, INITIAL.devs, false, false)
  }

  function State3(): Sys {
    State2().(devs := Ports(OpenedPort()))
  }

  function State4(): Sys {
    Sys([[Writer()], [], [], []],
        map[Other() := ProcIn(Running, Active, System, StartContext()),
            Writer() := ProcIn(Ready, Active, User, StartContext())],
        Other(), Some(SavedContext()), Ports(OpenedPort()), false, false)
  }

  function State5(): Sys {
    Sys([[Other()], [], [], []],
        map[Other() := ProcIn(Ready, Active, System, SavedContext()),
            Writer() := ProcIn(Running, Active, User, StartContext())],
        Writer(), Some(SavedContext()), Ports(OpenedPort()), false, false)
  }

  function State6(): Sys {
    Sys([[], [Writer()], [], []],
        map[Other() := ProcIn(Running, Active, System, SavedContext()),
            Writer() := ProcIn(Blocked, Active, User, AskedContext())],
        Other(), Some(SavedContext()), Ports(Sending([WriteOp(Writer())], false)), false, false)
  }

  function State7(): Sys {
    Sys([[], [], [], [Writer()]],
        map[Other() := ProcIn(Running, Active, System, SavedContext()),
            Writer() := ProcIn(Blocked, Suspended, User, AskedContext())],
        Other(), Some(SavedContext()), Ports(Sending([WriteOp(Writer())], false)), false, false)
  }

  function State8(): Sys {
    Sys([[], [Other()], [], [Writer()]],
        map[Other() := ProcIn(Blocked, Active, System, AskedContext()),
            Writer() := ProcIn(Blocked, Suspended, User, AskedContext())],
        NULL, Some(SavedContext()), Ports(Sending([WriteOp(Writer()), WriteOp(Other())], false)), true, false)
  }

  function State9(): Sys {
    State8().(devs := Ports(Sending([WriteOp(Writer()), WriteOp(Other())], true)))
  }

  function FaultRun(): seq<Event> { [
    CreatePcb(Other(), System, 0, StartContext()),
    CreatePcb(Writer(), User, 0, StartContext()),
    OpenPort(0),
    SysReq(IdleContext(), [], true),
    SysReq(IdleContext(), [], true),
    SysReq(WriteContext(), [65], true),
    SuspendPcb(Writer()),
    SysReq(WriteContext(), [65], true),
    OutputIrq(0),
    WaitLoop
  ] }

  lemma Boot0()
    ensures Enabled(INITIAL, FaultRun()[0]) && Step(INITIAL, FaultRun()[0]).sys == State1()
  {
    var s := Step(INITIAL, FaultRun()[0]).sys;
    assert InsertAt([], 0, Other()) == [Other()];
    assert s.queues == State1().queues;
    assert s.procs == State1().procs;
  }

  lemma Boot1()
    ensures Enabled(State1(), FaultRun()[1]) && Step(State1(), FaultRun()[1]).sys == State2()
  {
    var s := Step(State1(), FaultRun()[1]).sys;
    assert InsertAt([Other()], 1, Writer()) == [Other(), Writer()];
    assert s.queues == State2().queues;
    assert s.procs == State2().procs;
  }

  lemma Boot2()
    ensures Enabled(State2(), FaultRun()[2]) && Step(State2(), FaultRun()[2]).sys == State3()
  {
    assert Step(State2(), FaultRun()[2]).sys.devs == State3().devs;
  }

  /** Without finished operations, the check of the devices changes nothing. */
  lemma QuietCheck(s: Sys)
    requires forall d :: 0 <= d < 4 ==> !s.devs[d].event
    ensures CheckAll(s) == (s, false)
  {
    assert CheckUpTo(s, 1) == (s, false);
    assert CheckUpTo(s, 2) == (s, false);
    assert CheckUpTo(s, 3) == (s, false);
  }

  lemma QuietIdleStep(s: Sys, ctxt: Context, data: seq<byte>, memOk: bool)
    requires ctxt.eax == OP_IDLE && forall d :: 0 <= d < 4 ==> !s.devs[d].event
    ensures Step(s, SysReq(ctxt, data, memOk)) == Idle(s, ctxt.(eax := 0))
  {
    hide CheckUpTo, Idle;
    QuietCheck(s);
  }

  lemma QuietWriteStep(s: Sys, ctxt: Context, data: seq<byte>, memOk: bool)
    requires ctxt.eax == OP_WRITE && s.running != NULL && forall d :: 0 <= d < 4 ==> !s.devs[d].event
    ensures Step(s, SysReq(ctxt, data, memOk)) == Transfer(s, s.running, ctxt.(eax := 0), true, data, memOk)
  {
    hide CheckUpTo, Transfer;
    QuietCheck(s);
  }

  lemma FirstIdle()
    ensures Idle(State3(), SavedContext()).sys == State4()
  {
    var s := Idle(State3(), SavedContext()).sys;
    assert RemoveAt([Other(), Writer()], 0) == [Writer()];
    assert s.queues == State4().queues;
    assert s.procs == State4().procs;
  }

  lemma CallsOfRun()
    ensures |FaultRun()| == 10
    ensures FaultRun()[3] == FaultRun()[4] == SysReq(IdleContext(), [], true)
    ensures FaultRun()[5] == FaultRun()[7] == SysReq(WriteContext(), [65], true)
  {
  }

  /** A call by a process that runs, with a buffer as long as it says. */
  lemma CallEnabled(s: Sys)
    requires !s.fault && !s.waiting
    ensures Enabled(s, SysReq(IdleContext(), [], true)) && Enabled(s, SysReq(WriteContext(), [65], true))
  {
  }

  lemma Idle0()
    ensures Enabled(State3(), FaultRun()[3]) && Step(State3(), FaultRun()[3]).sys == State4()
  {
    hide Step, Idle, Transfer, SwitchAway, Enabled, FaultRun;
    CallsOfRun();
    CallEnabled(State3());
    QuietIdleStep(State3(), IdleContext(), [], true);
    FirstIdle();
  }

  /** Other() back in the queue, Writer() in hand. */
  function AfterYield(): Sys {
    Sys([[Other()], [], [], []],
        map[Other() := ProcIn(Ready, Active, System, SavedContext()),
            Writer() := ProcIn(Ready, Active, User, StartContext())],
        Other(), Some(SavedContext()), Ports(OpenedPort()), false, false)
  }

  lemma Yielded()
    ensures YieldTo(State4(), Writer(), SavedContext()) == AfterYield()
  {
    var y := YieldTo(State4(), Writer(), SavedContext());
    assert RemoveAt([Writer()], 0) == [] && InsertAt([], 0, Other()) == [Other()];
    assert y.queues == AfterYield().queues;
    assert y.procs == AfterYield().procs;
  }

  lemma SecondIdle()
    ensures Idle(State4(), SavedContext()).sys == State5()
  {
    Yielded();
    assert RunInstead(AfterYield(), Writer()).procs == State5().procs;
    hide YieldTo;
    assert State4().(original := Some(SavedContext())) == State4();
  }

  lemma Idle1()
    ensures Enabled(State4(), FaultRun()[4]) && Step(State4(), FaultRun()[4]).sys == State5()
  {
    hide Step, Idle, Transfer, SwitchAway, Enabled, FaultRun;
    CallsOfRun();
    CallEnabled(State4());
    QuietIdleStep(State4(), IdleContext(), [], true);
    SecondIdle();
  }

  /** Writer() blocked in its queue, nobody dispatched yet. */
  function AfterBlock(): Sys {
    Sys([[Other()], [Writer()], [], []],
        map[Other() := ProcIn(Ready, Active, System, SavedContext()),
            Writer() := ProcIn(Blocked, Active, User, AskedContext())],
        Writer(), Some(SavedContext()), Ports(Sending([WriteOp(Writer())], false)), false, false)
  }

  lemma WriteAccepted()
    ensures Accept(OpenedPort(), WriteOp(Writer())) == Some(Sending([WriteOp(Writer())], false))
  {
    var op, none: seq<byte> := WriteOp(Writer()), [];
    assert [] + [op] == [op] && none + [65] == [65];
  }

  lemma WriterBlocks()
    ensures Transfer(State5(), Writer(), AskedContext(), true, [65], true) == SwitchAway(AfterBlock())
  {
    WriteAccepted();
    hide Accept, SwitchAway;
    assert [65][..1] == [65];
    var s := State5().(devs := State5().devs[0 := Sending([WriteOp(Writer())], false)]);
    assert s.devs == AfterBlock().devs;
    var s1 := SetContext(SetExec(s, Writer(), Blocked), Writer(), AskedContext());
    assert InsertAt([], 0, Writer()) == [Writer()];
    assert Enqueue(s1, Writer()).queues == AfterBlock().queues;
    assert Enqueue(s1, Writer()).procs == AfterBlock().procs;
    assert Enqueue(s1, Writer()) == AfterBlock();
  }

  lemma OtherRuns()
    ensures SwitchAway(AfterBlock()).sys == State6()
  {
    var s := SwitchAway(AfterBlock()).sys;
    assert RemoveAt([Other()], 0) == [];
    assert s.queues == State6().queues;
    assert s.procs == State6().procs;
  }

  lemma FirstWrite()
    ensures Enabled(State5(), FaultRun()[5]) && Step(State5(), FaultRun()[5]).sys == State6()
  {
    hide Step, Idle, Transfer, SwitchAway, Enabled, FaultRun;
    CallsOfRun();
    CallEnabled(State5());
    QuietWriteStep(State5(), WriteContext(), [65], true);
    WriterBlocks();
    OtherRuns();
  }

  lemma SuspendWriter()
    ensures Enabled(State6(), FaultRun()[6]) && Step(State6(), FaultRun()[6]).sys == State7()
  {
    var s := Step(State6(), FaultRun()[6]).sys;
    assert RemoveAt([Writer()], 0) == [] && InsertAt([], 0, Writer()) == [Writer()];
    assert s.queues == State7().queues;
    assert s.procs == State7().procs;
  }

  lemma SecondAccepted()
    ensures Accept(Sending([WriteOp(Writer())], false), WriteOp(Other())) ==
            Some(Sending([WriteOp(Writer()), WriteOp(Other())], false))
  {
    assert [WriteOp(Writer())] + [WriteOp(Other())] == [WriteOp(Writer()), WriteOp(Other())];
  }

  /** Both blocked, nobody left to run. */
  function BothBlocked(): Sys {
    State8().(running := Other(), waiting := false)
  }

  lemma LastBlocks()
    ensures Transfer(State7(), Other(), AskedContext(), true, [65], true) == SwitchAway(BothBlocked())
  {
    SecondAccepted();
    hide Accept, SwitchAway;
    assert [65][..1] == [65];
    var s := State7().(devs := State7().devs[0 := Sending([WriteOp(Writer()), WriteOp(Other())], false)]);
    assert s.devs == State8().devs;
    var s1 := SetContext(SetExec(s, Other(), Blocked), Other(), AskedContext());
    assert InsertAt([], 0, Other()) == [Other()];
    assert Enqueue(s1, Other()).queues == State8().queues;
    assert Enqueue(s1, Other()).procs == State8().procs;
    assert Enqueue(s1, Other()) == BothBlocked();
  }

  lemma LastWaits()
    ensures SwitchAway(BothBlocked()).sys == State8()
  {
  }

  lemma SecondWrite()
    ensures Enabled(State7(), FaultRun()[7]) && Step(State7(), FaultRun()[7]).sys == State8()
  {
    hide Step, Idle, Transfer, SwitchAway, Enabled, FaultRun;
    CallsOfRun();
    CallEnabled(State7());
    QuietWriteStep(State7(), WriteContext(), [65], true);
    LastBlocks();
    LastWaits();
  }

  lemma ByteConfirmed()
    ensures Enabled(State8(), FaultRun()[8]) && Step(State8(), FaultRun()[8]).sys == State9()
  {
    assert Output(Sending([WriteOp(Writer()), WriteOp(Other())], false)) ==
           Some(Sending([WriteOp(Writer()), WriteOp(Other())], true));
    assert Step(State8(), FaultRun()[8]).sys.devs == State9().devs;
  }

  /** The check of port 0 wakes the suspended writer into queue 2; the other ports are closed. */
  lemma CheckWakes()
    ensures CheckAll(State9()).1 && CheckAll(State9()).0.queues[0] == []
  {
    FirstCheck();
    hide CheckUpTo, CheckIo;
    var s := CheckIo(State9(), 0).0;
    CheckUpToUnfold(State9(), 1);
    CheckUpToUnfold(State9(), 2);
    CheckUpToUnfold(State9(), 3);
    CheckUpToUnfold(State9(), 4);
    CheckUpToNone(State9());
    ClosedCheck(s, 1);
    ClosedCheck(s, 2);
    ClosedCheck(s, 3);
  }

  lemma FirstCheck()
    ensures var (s, ready) := CheckIo(State9(), 0);
            ready && s.queues[0] == [] && s.devs[1] == s.devs[2] == s.devs[3] == CLOSED_DEV
  {
    assert RemoveAt([Writer()], 0) == [];
  }

  lemma ClosedCheck(s: Sys, d: nat)
    requires d < 4 && !s.devs[d].open
    ensures CheckIo(s, d) == (s, false)
  {
  }

  lemma QueueEmpty()
    ensures WellFormed(FaultRun()[9]) && Enabled(State9(), FaultRun()[9]) && Step(State9(), FaultRun()[9]).sys.fault
  {
    CheckWakes();
    hide CheckUpTo;
  }

  /** From the first WRITE on, the run ends in the fault. */
  lemma LastHalf()
    ensures |FaultRun()| == 10 && Feasible(State5(), FaultRun()[5..]) && After(State5(), FaultRun()[5..]).fault
  {
    CallsOfRun();
    FirstWrite(); SuspendWriter(); SecondWrite(); ByteConfirmed(); QueueEmpty();
    hide Step, Enabled, State5, State6, State7, State8, State9, FaultRun, Feasible, After;
    var es, last := FaultRun(), Step(State9(), FaultRun()[9]).sys;
    RunOver(last, es);
    RunStep(State9(), es, 9);
    RunStep(State8(), es, 8);
    RunStep(State7(), es, 7);
    RunStep(State6(), es, 6);
    RunStep(State5(), es, 5);
  }

  lemma WaitLoopCanFault()
    ensures Feasible(INITIAL, FaultRun()) && After(INITIAL, FaultRun()).fault
  {
    LastHalf();
    Boot0(); Boot1(); Boot2(); Idle0(); Idle1();
    hide Step, Enabled, State1, State2, State3, State4, State5, FaultRun, Feasible, After;
    var es := FaultRun();
    RunStep(State4(), es, 4);
    RunStep(State3(), es, 3);
    RunStep(State2(), es, 2);
    RunStep(State1(), es, 1);
    RunStep(INITIAL, es, 0);
    assert es[0..] == es;
  }

  lemma RunOver(s: Sys, es: seq<Event>)
    ensures Feasible(s, es[|es|..]) && After(s, es[|es|..]) == s
  {
  }

  lemma RunStep(s: Sys, es: seq<Event>, i: nat)
    requires i < |es| && Enabled(s, es[i]) && Feasible(Step(s, es[i]).sys, es[i + 1..])
    ensures Feasible(s, es[i..])
    ensures After(s, es[i..]) == After(Step(s, es[i]).sys, es[i + 1..])
  {
    RunCons(s, es[i], es[i + 1..]);
    assert es[i..] == [es[i]] + es[i + 1..];
  }
}
