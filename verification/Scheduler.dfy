/**
 The I/O scheduler as a state machine on values: the system-call dispatcher (kernel/sys_call.c),
 wake-up and scheduling of device operations (kernel/serial.c:507-691), the two interrupt handlers
 and the PCB commands (kernel/comhand.c:577-579, 700-701, 730-733, 754-757).

 A step is atomic: the system-call gate clears the interrupt flag and the handlers run with it clear.
 `fault` records that the C code dereferenced NULL or left a buffer.
 */
module Scheduler {
  import opened Common
  import opened PcbQueues
  import opened Devices

  const OP_EXIT: int := 0
  const OP_IDLE: int := 1
  const OP_READ: int := 2
  const OP_WRITE: int := 3

  const S_ERR_DEV_NOT_FOUND: int := -500
  const S_ERR_PORT_NOT_OPEN: int := -501
  const S_ERR_INVALID_BUFFER: int := -502
  const S_ERR_INVALID_BUF_LEN: int := -503
  const S_ERR_DEV_BUSY: int := -504
  const S_ERR_OUT_OF_MEM: int := -505

  type Queues = q: seq<seq<Ptr>> | |q| == 4 witness [[], [], [], []]

  const CLOSED_DEV: Dev :=
    Dev(false, [], 0, false, false, ZeroRing(), 0, 0, [], [], 0, [], [])

  type Devs = ds: seq<Dev> | |ds| == 4 witness [CLOSED_DEV, CLOSED_DEV, CLOSED_DEV, CLOSED_DEV]

  datatype Sys = Sys(
    queues: Queues,
    procs: map<Ptr, Proc>,       // every live PCB
    running: Ptr,
    original: Option<Context>,   // context_original
    devs: Devs,
    waiting: bool,               // inside the wait loop of READ or WRITE
    fault: bool)

  /** What a system call gives back: the caller's context with a result, another context, or neither yet. */
  datatype Reply = Stay(eax: int) | Load(ctxt: Context) | Pending

  datatype Outcome = Outcome(sys: Sys, reply: Reply)

  const NO_PROC: Proc := Proc(PcbState(Blocked, Suspended, System, 0), Context(0, 0, 0, 0))

  function ProcOf(procs: map<Ptr, Proc>, p: Ptr): Proc {
    if p in procs then procs[p] else NO_PROC
  }

  function QueueOf(procs: map<Ptr, Proc>, p: Ptr): (k: nat)
    ensures k < 4
  {
    Selector(ProcOf(procs, p).state)
  }

  function Pris(procs: map<Ptr, Proc>, q: seq<Ptr>): (pris: seq<nat>)
    ensures |pris| == |q|
    ensures forall i :: 0 <= i < |q| ==> pris[i] == ProcOf(procs, q[i]).state.pri
  {
    seq(|q|, i requires 0 <= i < |q| => ProcOf(procs, q[i]).state.pri)
  }

  // ---------------------------------------------------------------- queue moves

  /** pcb_remove */
  function Detach(s: Sys, p: Ptr): Sys {
    var k := QueueOf(s.procs, p);
    var i := IndexOf(s.queues[k], p);
    if i < |s.queues[k]| then s.(queues := s.queues[k := RemoveAt(s.queues[k], i)]) else s
  }

  /** Where pcb_insert would put `p` in its queue. */
  function EntryIndex(s: Sys, p: Ptr): (i: nat)
    ensures i <= |s.queues[QueueOf(s.procs, p)]|
  {
    var k := QueueOf(s.procs, p);
    if IsPriorityQueue(k) then InsertIndex(Pris(s.procs, s.queues[k]), ProcOf(s.procs, p).state.pri)
    else |s.queues[k]|
  }

  /** pcb_insert */
  function Enqueue(s: Sys, p: Ptr): Sys {
    var k := QueueOf(s.procs, p);
    s.(queues := s.queues[k := InsertAt(s.queues[k], EntryIndex(s, p), p)])
  }

  function SetExec(s: Sys, p: Ptr, exec: ExecState): Sys {
    s.(procs := s.procs[p := ProcOf(s.procs, p).(state := ProcOf(s.procs, p).state.(exec := exec))])
  }

  function SetDispatch(s: Sys, p: Ptr, dispatch: DispatchState): Sys {
    s.(procs := s.procs[p := ProcOf(s.procs, p).(state := ProcOf(s.procs, p).state.(dispatch := dispatch))])
  }

  function SetPri(s: Sys, p: Ptr, pri: nat): Sys {
    s.(procs := s.procs[p := ProcOf(s.procs, p).(state := ProcOf(s.procs, p).state.(pri := pri))])
  }

  function SetContext(s: Sys, p: Ptr, ctxt: Context): Sys {
    s.(procs := s.procs[p := ProcOf(s.procs, p).(ctxt := ctxt)])
  }

  /** Makes the head of the active-ready queue the running process and loads its context. */
  function Dispatch(s: Sys): Outcome
    requires s.queues[0] != []
  {
    var p := s.queues[0][0];
    Outcome(RunInstead(Detach(s, p), p), Load(ProcOf(s.procs, p).ctxt))
  }

  // ---------------------------------------------------------------- devices

  /** The PCB half of serial_check_io: the requester becomes ready with its byte count in eax. */
  function Wake(s: Sys, p: Ptr, count: nat): Sys {
    var s1 := SetExec(Detach(s, p), p, Ready);
    Enqueue(SetContext(s1, p, ProcOf(s1.procs, p).ctxt.(eax := count)), p)
  }

  /** serial_check_io */
  function CheckIo(s: Sys, d: nat): (Sys, bool)
    requires d < 4
  {
    var dev := s.devs[d];
    if !dev.open || !dev.event then (s, false)
    else if dev.ops == [] then (s.(fault := true), false)
    else
      match Retire(dev)
      case None => (s.(fault := true), false)
      case Some(dev') => (Wake(s, dev.ops[0].rq, dev.idx).(devs := s.devs[d := dev']), true)
  }

  /** sys_check_io after the first `n` devices. */
  function CheckUpTo(s: Sys, n: nat): (Sys, bool)
    requires n <= 4
  {
    if n == 0 then (s, false)
    else
      var (s1, ready1) := CheckUpTo(s, n - 1);
      var (s2, ready2) := CheckIo(s1, n - 1);
      (s2, ready1 || ready2)
  }

  function CheckAll(s: Sys): (Sys, bool) {
    CheckUpTo(s, 4)
  }

  /** Result code of serial_schedule_io. */
  function ScheduleCode(devs: Devs, ctxt: Context, memOk: bool): int {
    if ctxt.ecx == 0 then S_ERR_INVALID_BUFFER
    else if ctxt.edx == 0 then S_ERR_INVALID_BUF_LEN
    else if DevNo(ctxt.ebx) == -1 then S_ERR_DEV_NOT_FOUND
    else if !devs[DevNo(ctxt.ebx)].open then S_ERR_PORT_NOT_OPEN
    else if !memOk then S_ERR_OUT_OF_MEM
    else 0
  }

  // ---------------------------------------------------------------- system calls

  /** READ and WRITE with a running process; `data` is what the caller's buffer holds. */
  function Transfer(s: Sys, p: Ptr, ctxt: Context, write: bool, data: seq<byte>, memOk: bool): Outcome {
    if ScheduleCode(s.devs, ctxt, memOk) != 0 then Outcome(s, Stay(0))
    else if |data| < ctxt.edx then Outcome(s.(fault := true), Stay(0))
    else
      var d := DevNo(ctxt.ebx);
      match Accept(s.devs[d], Op(p, write, ctxt.edx, data[..ctxt.edx]))
      case None => Outcome(s.(fault := true), Stay(0))
      case Some(dev) =>
        var s1 := SetContext(SetExec(s.(devs := s.devs[d := dev]), p, Blocked), p, ctxt);
        SwitchAway(Enqueue(s1, p))
  }

  /** The caller of READ or WRITE is blocked: run the next ready process, or start to wait for one. */
  function SwitchAway(s: Sys): Outcome {
    if s.queues[0] != [] then Dispatch(s)
    else Outcome(s.(running := NULL, waiting := true), Pending)
  }

  function Idle(s: Sys, ctxt: Context): Outcome {
    var s1 := s.(original := if s.original.None? then Some(ctxt) else s.original);
    if s1.queues[0] == [] then Outcome(s1, Stay(0))
    else
      var next := s1.queues[0][0];
      Outcome(RunInstead(YieldTo(s1, next, ctxt), next), Load(ProcOf(s1.procs, next).ctxt))
  }

  /** `next` leaves its queue before the yielding process, if any, enters. */
  function YieldTo(s: Sys, next: Ptr, ctxt: Context): Sys {
    var s1 := Detach(s, next);
    if s.running == NULL then s1
    else Enqueue(SetExec(SetContext(s1, s.running, ctxt), s.running, Ready), s.running)
  }

  function RunInstead(s: Sys, p: Ptr): Sys {
    SetExec(s, p, Running).(running := p)
  }

  function Exit(s: Sys, p: Ptr): Outcome {
    var s1 := s.(procs := s.procs - {p});
    if s1.queues[0] != [] then Dispatch(s1)
    else
      match s1.original
      case Some(c) => Outcome(s1.(running := NULL, original := None), Load(c))
      case None => Outcome(s1, Stay(0))
  }

  function SysCall(s0: Sys, ctxt: Context, data: seq<byte>, memOk: bool): Outcome {
    var s := CheckAll(s0).0;
    var saved := ctxt.(eax := 0);
    if ctxt.eax == OP_READ || ctxt.eax == OP_WRITE then
      if s.running == NULL then Outcome(s, Stay(-1))
      else Transfer(s, s.running, saved, ctxt.eax == OP_WRITE, data, memOk)
    else if ctxt.eax == OP_IDLE then Idle(s, saved)
    else if ctxt.eax == OP_EXIT then
      if s.running == NULL then Outcome(s.(fault := true), Stay(0)) else Exit(s, s.running)
    else Outcome(s, Stay(0))
  }

  /** One turn of the wait loop, after the interrupt that ended `hlt`. */
  function WaitTurn(s: Sys): Outcome {
    var (s1, ready) := CheckAll(s);
    if !ready then Outcome(s1, Pending)
    else if s1.queues[0] == [] then Outcome(s1.(fault := true), Pending)
    else Dispatch(s1.(waiting := false))
  }

  // ---------------------------------------------------------------- events and runs

  datatype Event =
    | SysReq(ctxt: Context, data: seq<byte>, memOk: bool)
    | WaitLoop
    | InputIrq(d: nat, b: byte)
    | OutputIrq(d: nat)
    | SuspendPcb(p: Ptr)
    | ResumePcb(p: Ptr)
    | SetPriority(p: Ptr, pri: nat)
    | CreatePcb(p: Ptr, cls: ClassState, pri: nat, ctxt: Context)
    | DeletePcb(p: Ptr)
    | OpenPort(d: nat)
    | ClosePort(d: nat)

  function OnDevice(s: Sys, d: nat, dev: Option<Dev>): Sys
    requires d < 4
  {
    match dev
    case None => s.(fault := true)
    case Some(dev') => s.(devs := s.devs[d := dev'])
  }

  /** The event's device number, when it has one, names one of the four ports. */
  predicate WellFormed(e: Event) {
    (e.InputIrq? || e.OutputIrq? || e.OpenPort? || e.ClosePort?) ==> e.d < 4
  }

  function Step(s: Sys, e: Event): Outcome
    requires WellFormed(e)
  {
    match e
    case SysReq(ctxt, data, memOk) => SysCall(s, ctxt, data, memOk)
    case WaitLoop => WaitTurn(s)
    case InputIrq(d, b) => Outcome(if s.devs[d].open then OnDevice(s, d, Input(s.devs[d], b)) else s, Pending)
    case OutputIrq(d) => Outcome(if s.devs[d].open then OnDevice(s, d, Output(s.devs[d])) else s, Pending)
    case SuspendPcb(p) =>
      Outcome(if ProcOf(s.procs, p).state.cls == System then s
              else Enqueue(SetDispatch(Detach(s, p), p, Suspended), p), Pending)
    case ResumePcb(p) => Outcome(Enqueue(SetDispatch(Detach(s, p), p, Active), p), Pending)
    case SetPriority(p, pri) => Outcome(Enqueue(SetPri(Detach(s, p), p, pri), p), Pending)
    case CreatePcb(p, cls, pri, ctxt) =>
      Outcome(Enqueue(s.(procs := s.procs[p := Proc(PcbState(Ready, Active, cls, pri), ctxt)]), p), Pending)
    case DeletePcb(p) =>
      Outcome(if ProcOf(s.procs, p).state.cls == System then s
              else var s1 := Detach(s, p); s1.(procs := s1.procs - {p}), Pending)
    case OpenPort(d) =>
      Outcome(if s.devs[d].open then s else s.(devs := s.devs[d := Opened(s.devs[d])]), Pending)
    case ClosePort(d) =>
      Outcome(if !s.devs[d].open || s.devs[d].ops != [] then s
              else s.(devs := s.devs[d := Closed(s.devs[d])]), Pending)
  }

  /** Found by pcb_find: live and in a queue. */
  predicate InAQueue(s: Sys, p: Ptr) {
    p in s.procs && p in s.queues[QueueOf(s.procs, p)]
  }

  /** When an event can happen at all, and what the code takes for granted about it. */
  predicate Enabled(s: Sys, e: Event) {
    && !s.fault
    && WellFormed(e)
    && match e
       case SysReq(ctxt, data, memOk) =>
         && !s.waiting
         && (ctxt.eax == OP_EXIT ==> s.running != NULL)
         && ((ctxt.eax == OP_READ || ctxt.eax == OP_WRITE) && ctxt.ecx != 0 ==> ctxt.edx <= |data|)
       case WaitLoop => s.waiting
       case InputIrq(d, b) => s.devs[d].open ==> s.devs[d].ops != []
       case OutputIrq(d) => s.devs[d].txInt
       case SuspendPcb(p) => !s.waiting && InAQueue(s, p)
       case ResumePcb(p) => !s.waiting && InAQueue(s, p)
       case SetPriority(p, pri) => !s.waiting && InAQueue(s, p) && pri <= 9
       case CreatePcb(p, cls, pri, ctxt) => !s.waiting && p != NULL && p !in s.procs && pri <= 9
       case DeletePcb(p) => !s.waiting && InAQueue(s, p) && s.procs[p].state.exec == Ready
       case OpenPort(d) => true
       case ClosePort(d) => true
  }

  const INITIAL: Sys :=
    Sys([[], [], [], []], map[], NULL, None, [CLOSED_DEV, CLOSED_DEV, CLOSED_DEV, CLOSED_DEV], false, false)

  /** Every event of the run is enabled when its turn comes. */
  predicate Feasible(s: Sys, es: seq<Event>)
    decreases |es|
  {
    es == [] || (Enabled(s, es[0]) && Feasible(Step(s, es[0]).sys, es[1..]))
  }

  /** The state at the end of a run. */
  function After(s: Sys, es: seq<Event>): Sys
    requires Feasible(s, es)
    decreases |es|
  {
    if es == [] then s else After(Step(s, es[0]).sys, es[1..])
  }
}
