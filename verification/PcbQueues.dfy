/**
 Process control blocks and the linked queues that hold them
 (kernel/pcb.c, include/mpx/pcb.h).
 */
module PcbQueues {
  import opened Common

  /** A pointer to a process control block. */
  datatype Ptr = NULL | Addr(address: nat)

  datatype ExecState = Blocked | Ready | Running

  datatype DispatchState = Suspended | Active

  datatype ClassState = System | User

  datatype PcbState = PcbState(exec: ExecState, dispatch: DispatchState, cls: ClassState, pri: nat)

  /**
   The registers of an interrupted process that the system-call handler looks at: the operation or
   its result, the port, the buffer address (0 is NULL) and the buffer length.
   */
  datatype Context = Context(eax: int, ebx: int, ecx: nat, edx: nat)

  /** What the scheduler knows of a process: its state and its saved context. */
  datatype Proc = Proc(state: PcbState, ctxt: Context)

  /** The queue a PCB belongs in: 0 active-ready, 1 active-blocked, 2 and 3 the same suspended. */
  function Selector(state: PcbState): (k: nat)
    ensures k < 4
  {
    (if state.exec != Ready then 1 else 0) + (if state.dispatch != Active then 2 else 0)
  }

  predicate IsPriorityQueue(k: nat) {
    k == 0 || k == 2
  }

  /** Where a process of priority `pri` enters: after every equal or better priority in front. */
  function InsertIndex(pris: seq<nat>, pri: nat): (k: nat)
    ensures k <= |pris|
    ensures forall i :: 0 <= i < k ==> pris[i] <= pri
    ensures k < |pris| ==> pri < pris[k]
  {
    if |pris| == 0 || pri < pris[0] then 0 else 1 + InsertIndex(pris[1..], pri)
  }

  /** The two facts in InsertIndex's contract determine it. */
  lemma InsertIndexUnique(pris: seq<nat>, pri: nat, k: nat)
    requires k <= |pris|
    requires forall i :: 0 <= i < k ==> pris[i] <= pri
    requires k < |pris| ==> pri < pris[k]
    ensures k == InsertIndex(pris, pri)
  {
  }

  lemma InsertKeepsAscending(pris: seq<nat>, pri: nat)
    requires Ascending(pris)
    ensures Ascending(InsertAt(pris, InsertIndex(pris, pri), pri))
  {
  }

  lemma RemoveKeepsAscending(pris: seq<nat>, k: nat)
    requires k < |pris|
    ensures Ascending(pris) ==> Ascending(RemoveAt(pris, k))
  {
  }
}
