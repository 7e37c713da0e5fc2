# A verified model of the MPX kernel core

MPX is a small teaching kernel: a dispatcher over four PCB queues, an interrupt-driven serial driver, a first-fit
heap, a polled line editor, boot-time paging and a few string routines. This project models those parts in Dafny
and proves what they promise. `dafny verify dfyconfig.toml` checks all of it.

## How the model is built

**The I/O scheduler** (`PcbQueues`, `Devices`, `Scheduler`, `SchedulerInv`, `SchedulerRuns`, `Fairness`,
`Guarantees`, `Returns`, `Calls`, `Progress`, `FaultExample`; `PcbMemory`, `ControlBlocks`, `SerialDriver`, `Kernel`).
`Scheduler.Step` gives the effect of one event: a system call, a turn of the wait loop, an input or output interrupt, a
PCB command, opening or closing a port. `Calls` says what each of them achieves without naming the functions that
`Step` is made of: in terms of the registers of the call, and of who stands where in which queue. A run is a sequence of
events, each enabled when its turn comes (`Enabled`, `Feasible`). `SchedulerInv.Inv` ties PCB states, queue membership,
ownership of outstanding operations, buffer progress and the transmit-interrupt bit together, and every enabled event
keeps it. The theorems about whole runs are in `SchedulerRuns`, `Fairness`, `Guarantees`, `Returns`, `Calls` and
`Progress`. Beside this stands the imperative code: `PcbMemory` relinks `p_next`, heads and tails of the PCB queues,
`ControlBlocks` gives each device its linked queue of I/O control blocks, `SerialDriver` has the driver routines
statement by statement on those links, and class `KernelState.Kernel` holds the globals and has one method per kernel
entry point. Each method is proved to do exactly what `Step` says, so the theorems about runs hold of the code.

What the code takes for granted is part of `Enabled`: an input interrupt comes only when its device has an operation,
an output interrupt only while its interrupt is enabled, EXIT only with a running process, and a PCB is deleted only
in state READY, so without outstanding I/O (`SchedulerRuns.DeleteExact`: deleting any other user process breaks the
invariant). A call gives a buffer at least as long as it says.

*A fault that can happen.* The wait loop of READ and WRITE (kernel/sys_call.c:77-89, 130-141) takes the head of the
active-ready queue as soon as some operation finished, under a comment that one is guaranteed. It is not: if every
operation that finished belongs to a suspended process, the queue is empty and NULL is dereferenced.
`SchedulerRuns.StepKeeps` shows that this is the only way to fault and exactly when it happens,
`FaultExample.WaitLoopCanFault` is a run of ten events from power-on that gets there, and `Guarantees.NoFault` shows
that it cannot happen while only processes without outstanding I/O are suspended.

*A buffer that is never read.* The two ring-buffer indices are always equal (part of `Devices.Safe`), so the initial
copy of a READ never copies anything: what arrives during a WRITE is not delivered later.

*A search that reads too far.* `serial_open` looks for the speed in as many words as its table has bytes
(kernel/serial.c:230), so it also accepts whatever speed the 27 words behind the table happen to hold.

**The heap** (`HeapTiles`, `HeapLinks`, `HeapFree`, `HeapLists`, `Heap`). The abstract state is the row of blocks that
tile the heap; headers with `p_prev`, `p_next` and `blk_size` lie in a memory map, and both lists are what the links
spell out. Three link updates are missing in the source. The constant `repaired` of class `HeapState.Heap` says whether they are
made: unlinking a block given away whole (kernel/memory.c:121-128), moving `alloc_head` to a block below it
(kernel/memory.c:133-147), and linking a freed block behind a free block that it does not touch
(kernel/memory.c:261-287). With `repaired` the lists always stay right. Without it the code is as written, and each
operation states the exact condition under which the lists survive. So does the round trip of allocating and freeing,
which can put lists right again that were wrong in between (`HeapState.Heap.AllocateAndFree`).
`HeapState.BuildHole` takes the code as written to a heap with right lists, and `HeapState.BreakLists` shows four
requests each of which then destroys them. The split, backward merge, lowest-block and empty-list branches need no
repair.

**The line editor** (`LineEditor`, `Keystrokes`, `Terminal`). The polling loop edits the caller's buffer in place and is proved to
compute `Edit` and to send `Echoes` for every input; `Keystrokes` says what each byte does to both. `Terminal` interprets the bytes sent and shows that the screen
line always displays the buffer.

**Smaller parts.** `Vm`: frame bitmap, page tables and the loops of `vm_init`, whose bound grows while it runs.
`Tokenizer`: `strtok` with its static pointer. `Numbers`: number printers and parsers; `atoi` undoes `itoa` exactly
for non-negative integers, and every negative one comes back as 0, because `itoa` prints no sign and subtracts the
digits from '0'.

## Model

| member | source | states |
|---|---|---|
| PcbQueues.InsertIndexUnique | kernel/pcb.c:54-90 | The insertion point is the only one with no lower priority before it and only strictly lower ones after it |
| PcbQueues.InsertKeepsAscending | kernel/pcb.c:54-90 | Inserting there keeps a queue sorted by priority |
| PcbMemory.FindEntry | kernel/pcb.c:56-76 | The search loop stops exactly at the insertion point, with the node before it at hand |
| PcbMemory.Insert | kernel/pcb.c:21-99 | On the linked structure, pcb_insert is stable insertion by priority, or append; head, tail and acyclic links stay right and no other PCB is touched |
| PcbMemory.Remove | kernel/pcb.c:226-280 | pcb_remove deletes exactly the given element and clears its link, or returns -1 and changes nothing |
| Devices.AcceptKeeps | kernel/serial.c:424-458 | Accepting a request keeps the device invariant and cannot leave a buffer |
| Devices.InputKeeps | kernel/serial.c:693-728 | An input interrupt with work queued stays inside the request buffer and the ring and keeps the device invariant |
| Devices.OutputKeeps | kernel/serial.c:730-757 | An output interrupt while enabled never meets an empty queue, stays in the buffer and keeps the device invariant |
| Devices.RetireKeeps | kernel/serial.c:530-600 | Retiring a finished operation and starting the next keeps the invariant, the byte stream and the order of requests |
| Devices.PortTable | kernel/serial.c:26-35 | The four port addresses are devices 0 to 3, and no other address is a device |
| Devices.OpenCloseKeep | kernel/serial.c:383-391 | Opening a closed port and closing an idle one keep the device invariant |
| ControlBlocks.QueueEnds | kernel/serial.c:414-427 | Head and tail of the linked queue are NULL together, exactly when no request is queued, and the head asks for the oldest one |
| ControlBlocks.FirstBlock | kernel/serial.c:424-430 | The two head and tail assignments for an idle device make a queue of one |
| ControlBlocks.BlockAppended | kernel/serial.c:681-688 | The two tail updates append to the linked queue |
| ControlBlocks.HeadFreed | kernel/serial.c:533-541 | Freeing the head, with the tail reset for the last block, removes exactly the oldest request |
| ControlBlocks.HeadRewritten | kernel/serial.c:718-721 | Storing a byte in the head's buffer changes no link and no other request |
| SerialDriver.SpeedMatches | kernel/serial.c:216-238 | The search succeeds exactly for the nine supported speeds and for what lies in the 27 words behind them |
| SerialDriver.InputInterrupt | kernel/serial.c:693-728 | The handler has exactly the abstract effect of an input byte |
| SerialDriver.OutputInterrupt | kernel/serial.c:730-757 | The handler has exactly the abstract effect, also when the operation at the head is over or a READ |
| SerialDriver.CopyFromRing | kernel/serial.c:432-449 | The initial copy of a READ takes the buffered bytes up to '\r', the end of the ring data or a full buffer, and leaves the begin index behind them |
| SerialDriver.StartRead | kernel/serial.c:561-590 | The initial steps of a READ, on the block at the head |
| SerialDriver.StartWrite | kernel/serial.c:591-598 | The initial steps of a WRITE |
| SerialDriver.QueueFirst | kernel/serial.c:424-430 | Queueing on an idle device refines a queue of one request |
| SerialDriver.QueueLast | kernel/serial.c:681-688 | Queueing on a busy device refines appending the request; no other block changes hands |
| SerialDriver.FreeHead | kernel/serial.c:530-541 | Retiring the head refines dropping the oldest request and frees exactly its block |
| SerialDriver.SerialRead | kernel/serial.c:394-459 | Which error is returned when, and that result 0 means one READ was queued and started |
| SerialDriver.SerialWrite | kernel/serial.c:461-505 | The same for WRITE, whose first byte is sent at once |
| SerialDriver.FinishOperation | kernel/serial.c:530-600 | The device's half of serial_check_io is the abstract retirement |
| SchedulerInv.DetachKeeps | kernel/pcb.c:226-280 | Taking a PCB out of its queue leaves every other PCB in the one queue its state selects |
| SchedulerInv.EnqueueKeeps | kernel/pcb.c:21-99 | Putting one in does too, and the ready queues stay sorted |
| SchedulerInv.WakeKeeps | kernel/serial.c:521-529 | A wake-up changes the requester's execution state and eax, moves it to the right queue and touches nobody else |
| SchedulerInv.CheckIoKeeps | kernel/serial.c:507-604 | serial_check_io keeps the invariant, reports readiness exactly when the device had an event, and leaves other devices alone |
| SchedulerInv.CheckUpToKeeps | kernel/sys_call.c:15-26 | The loop over the devices keeps the invariant and reports readiness exactly when some device had an event |
| SchedulerInv.DispatchKeeps | kernel/sys_call.c:64-73 | With nobody running, the head of the ready queue runs next, its context is loaded, and the invariant holds |
| SchedulerInv.TransferKeeps | kernel/sys_call.c:45-96 | READ and WRITE block the caller, dispatch or start to wait, and keep the invariant without fault |
| SchedulerInv.IdleKeeps | kernel/sys_call.c:155-182 | IDLE keeps the invariant |
| SchedulerInv.ExitKeeps | kernel/sys_call.c:192-214 | EXIT keeps the invariant and always loads a context |
| SchedulerRuns.CheckUpToReady | kernel/sys_call.c:15-26 | After the check of the devices the ready queue is empty exactly when it was and only suspended processes were woken |
| SchedulerRuns.WaitTurnKeeps | kernel/sys_call.c:76-89 | A turn of the wait loop keeps the invariant and faults exactly when it wakes somebody but nobody active |
| SchedulerRuns.RequeueKeeps | kernel/comhand.c:730-757 | Remove, change dispatch state or priority, insert: keeps the invariant |
| SchedulerRuns.DeleteExact | kernel/comhand.c:692-702 | Deleting a user process keeps the invariant if and only if it is ready |
| SchedulerRuns.StepKeeps | kernel/sys_call.c:28-218 | Every enabled event keeps the global invariant; the bad turn of the wait loop is the only fault there is |
| SchedulerRuns.RunKeeps | kernel/sys_call.c:28-218 | The invariant holds at the end of every run |
| SchedulerRuns.RunFault | kernel/sys_call.c:77-89 | From power-on, a run ends in a fault if and only if its last event is that turn of the wait loop |
| FaultExample.WaitLoopCanFault | kernel/sys_call.c:130-141 | A concrete run from power-on after which the wait loop dereferences NULL |
| Fairness.StepFares | kernel/sys_call.c:155-180 | In one event a waiting process runs, or moves up by one per dispatch and back by no more than the strictly more urgent processes that entered |
| Fairness.BoundedWaiting | kernel/sys_call.c:155-180 | Over any run, a process with j ahead of it runs after at most j dispatches plus those that overtook it with strictly higher priority |
| Fairness.IdleOrder | kernel/sys_call.c:155-180 | Whatever the priorities, IDLE runs the head and puts the caller behind all at least as urgent and in front of all less urgent |
| Fairness.IdleAlone | kernel/sys_call.c:155-180 | With only less urgent processes waiting, the next of them runs and the caller becomes head of the queue |
| Fairness.IdleRotates | kernel/sys_call.c:155-180 | With peers waiting and nobody more urgent, IDLE passes on to the next peer, queues the caller behind the last, and leaves all lower priorities where they are |
| Fairness.RoundRobin | kernel/sys_call.c:155-180 | Any number of IDLEs turns the circle of equal-priority processes by that many places, and the lower priorities behind them stay as they were |
| Guarantees.NoFault | kernel/sys_call.c:84-88 | While only processes without outstanding I/O are suspended, no run faults |
| Guarantees.LogsStep | kernel/serial.c:606-691 | Each event adds to a device's received bytes and accepted requests exactly what it brings |
| Guarantees.LogsRun | kernel/serial.c:606-691 | The same over runs |
| Guarantees.WireOrder | kernel/serial.c:730-757 | On every run a device has sent the payloads of its finished WRITEs in acceptance order, then the first bytes of the one in progress: nothing lost, repeated or interleaved |
| Guarantees.HeadStep | kernel/serial.c:530-600 | In every event a device's start mark moves exactly when it gets a new head, to the end of what was received, and a finished request records it |
| Guarantees.StartsAsHead | kernel/serial.c:530-600 | Every request worked on or finished has a prefix of the run whose last event made it the head, and its bytes begin with those received after that prefix |
| Guarantees.HeadOnce | kernel/serial.c:530-600 | A request becomes the head once only |
| Guarantees.ReadFrames | kernel/serial.c:715-726 | On every run a finished READ holds exactly the consecutive bytes received since the one event that made it the head: at least one, ending at the first '\r' or at a full buffer, and no byte goes to two READs |
| Guarantees.WakesOwnRequester | kernel/serial.c:519-541 | A finished operation wakes its own blocked requester with eax equal to its byte count |
| Returns.ReadyResumes | kernel/sys_call.c:28-218 | In every event that does not delete it, a ready process either stays ready with the context saved for it, or runs and that context is the one loaded |
| Returns.CallStarts | kernel/sys_call.c:50-63 | An accepted READ or WRITE blocks its caller with its context saved and is the device's next request |
| Returns.UnderwayStep | kernel/serial.c:507-604 | In every event the call stays under way, blocked or finished with its count in eax, or returns with that count |
| Returns.CallReturns | kernel/sys_call.c:28-218 | On every run after an accepted READ or WRITE, unless the caller is deleted: the first context loaded for the caller is the one of this call, with the byte count of this very request in eax; until then the call is under way |
| Returns.ReturnsOnce | kernel/sys_call.c:28-218 | A running process is never loaded again, and only its own system call stops it |
| Progress.CanAdvance | kernel/serial.c:693-757 | A device with work is never stuck: the next check, the next byte or an interrupt that is enabled advances it |
| Progress.StepAdvances | kernel/serial.c:507-604 | Each such event takes one step off what remains for a request already accepted, and no event adds to it |
| Progress.Finishes | kernel/serial.c:507-757 | A request is finished on every run that advances its device as often as there were bytes in progress and ahead, plus one check for each request up to it |
| Progress.CallFinishes | kernel/sys_call.c:28-218 | So the caller of READ or WRITE is ready with its own byte count after that many, or has returned with it |
| Calls.PowerOn | kernel/serial.c:201-209 | At power-on there are no processes, nothing is saved, and the ports are closed and idle |
| Calls.AcceptedWhen | kernel/serial.c:606-691 | A device accepts a request if and only if a running process calls READ or WRITE with a buffer, a length, that device's port, the device open and memory at hand; the request is the one asked for |
| Calls.RefusedWhen | kernel/sys_call.c:44-56 | In every other case nothing happens beyond the check of the devices, and the caller finds 0 in eax, or -1 if no process runs |
| Calls.UnknownCall | kernel/sys_call.c:28-42 | Any other operation is answered with 0 |
| Calls.TransferSwitches | kernel/sys_call.c:57-90 | The caller of an accepted READ or WRITE waits at the end of queue 1, and the head of queue 0 runs from its saved context, or nobody |
| Calls.WakeDoes | kernel/serial.c:519-527 | A finished operation makes its requester ready with its byte count, at its place by priority, and moves nobody else |
| Calls.TurnDoes | kernel/sys_call.c:77-89 | A turn of the wait loop does nothing without a finished operation; with one, the head of queue 0 runs |
| Calls.IdleStays | kernel/sys_call.c:155-182 | IDLE with nobody else ready goes on with 0 in eax |
| Calls.IdleYields | kernel/sys_call.c:155-182 | Otherwise the head of queue 0 runs, and the caller enters behind its equals; the others keep their order |
| Calls.ExitToKernel | kernel/sys_call.c:205-211 | EXIT with nobody left to run loads the context saved first, keeps nothing of it, and the caller is gone |
| Calls.ExitToNext | kernel/sys_call.c:192-204 | Otherwise the head of queue 0 runs and that context is kept |
| Calls.OriginalStep | kernel/sys_call.c:155-214 | IDLE saves its context if none is saved, EXIT to the kernel uses it up, and nothing else touches it |
| Calls.FirstIdleSaved | kernel/sys_call.c:155-214 | On every run the saved context is that of the first IDLE since control last went back to the kernel |
| Calls.ExitResumesFirstIdle | kernel/sys_call.c:205-211 | So after any run EXIT with nobody left goes back to where that IDLE came from |
| Calls.ResumeDoes | kernel/comhand.c:754-758 | Resume makes the process active and puts it where it belongs by priority, or last if it is blocked; nothing else changes and the others keep their order |
| Calls.SuspendDoes | kernel/comhand.c:722-734 | Suspend does the opposite to a user process and nothing to a system process |
| Calls.SetPriorityDoes | kernel/comhand.c:577-579 | Set priority changes just that, and gives the process its new place |
| Calls.CreateDoes | kernel/pcb.c:116-145 | A new process is ready, active and in its place in queue 0 |
| Calls.DeleteDoes | kernel/comhand.c:692-702 | Delete takes a user process out of its queue and away, and the others keep their order |
| Calls.InterruptDoes | kernel/serial.c:693-757 | An interrupt concerns its device only, and nothing while the port is closed |
| Calls.OpenPortDoes | kernel/serial.c:247-253 | Opening a closed port resets ring and flags; an open port is left alone |
| Calls.ClosePortDoes | kernel/serial.c:322-391 | Closing an idle open port leaves it closed with its interrupts off; any other is left alone |
| Guarantees.OutstandingIo | kernel/serial.c:507-691 | On every run blocked processes and queued operations are in bijection, blocked processes are those in the two blocked queues, and the running process has no operation |
| Guarantees.ExitLoads | kernel/sys_call.c:192-214 | EXIT's final return is unreachable: a context is always loaded |
| KernelState.Kernel.constructor | kernel/pcb.c:19 | Power-on state meets the invariant |
| KernelState.Kernel.PcbInsert | kernel/pcb.c:21-99 | pcb_insert on the kernel's queues does exactly the abstract insertion |
| KernelState.Kernel.PcbRemove | kernel/pcb.c:226-280 | pcb_remove does exactly the abstract removal; 0 means it was there |
| KernelState.Kernel.Find | kernel/pcb.c:200-224 | pcb_find returns the first PCB of that name in the first queue that has one, NULL exactly when no queued PCB has it |
| KernelState.Kernel.Create | kernel/pcb.c:116-146 | A PCB is created exactly when the name fits and is unused, the priority is valid and memory was there; it starts in the active-ready queue |
| KernelState.Kernel.CheckDevices | kernel/sys_call.c:15-26 | sys_check_io has the abstract effect |
| KernelState.Kernel.ScheduleIo | kernel/serial.c:606-691 | Which result serial_schedule_io gives in exactly which case; 0 means that one operation of the running process was appended, any other that nothing changed |
| KernelState.Kernel.IdleCall | kernel/sys_call.c:155-182 | The IDLE code has the abstract effect |
| KernelState.Kernel.ExitCall | kernel/sys_call.c:192-214 | The EXIT code has the abstract effect |
| KernelState.Kernel.SysCall | kernel/sys_call.c:28-218 | sys_call does exactly what the state machine says and keeps the invariant |
| KernelState.Kernel.WaitLoopTurn | kernel/sys_call.c:77-89 | One turn of the wait loop does exactly what the state machine says |
| KernelState.Kernel.InputIrq | kernel/serial.c:693-728 | Input interrupt: as the state machine says, invariant kept |
| KernelState.Kernel.OutputIrq | kernel/serial.c:730-757 | Output interrupt: as the state machine says, invariant kept |
| KernelState.Kernel.Open | kernel/serial.c:214-248 | Which result code is returned when; 0 means that the port was opened with ring indices and flags reset, any other that nothing changed |
| KernelState.Kernel.Close | kernel/serial.c:315-391 | The same for closing; a closed port and one with queued work are refused |
| KernelState.Kernel.Suspend | kernel/comhand.c:722-734 | Suspend refuses system processes, otherwise moves the PCB to the queue of its new state |
| KernelState.Kernel.Resume | kernel/comhand.c:754-758 | Resume moves the PCB back |
| KernelState.Kernel.ChangePriority | kernel/comhand.c:577-579 | Set priority re-inserts the PCB at its new place |
| KernelState.Kernel.Delete | kernel/comhand.c:692-702 | Delete refuses system processes, otherwise takes the PCB out of its queue and out of memory; the invariant survives if and only if the process was ready |
| HeapTiles.AllocateKeeps | kernel/memory.c:97-154 | Splitting a block, or giving it away whole, keeps the heap tiled without gap or overlap, and no two free blocks are neighbours |
| HeapTiles.ReleaseKeeps | kernel/memory.c:227-310 | Freeing with two-sided coalescing keeps both |
| HeapTiles.AllocateHolds | kernel/memory.c:46-157 | A successful request adds one block of the size asked for, or up to a header more, and leaves every other allocated block untouched |
| HeapTiles.LowestFit | kernel/memory.c:49-120 | The lowest free block with room is taken, and split exactly when a header and at least a byte are left behind |
| HeapTiles.ReleaseHolds | kernel/memory.c:189-310 | Freeing takes exactly one allocated block away |
| HeapTiles.FreeUndoesAllocate | kernel/memory.c:97-154 | Freeing the block just allocated restores every block, on both paths |
| HeapTiles.RoundTrip | kernel/memory.c:159-313 | free_memory(allocate_memory(n)) restores the heap exactly |
| HeapTiles.RunKeeps | kernel/memory.c:38-313 | Any sequence of requests keeps the heap tiled and coalesced |
| HeapTiles.FreeingAllEmpties | kernel/memory.c:17-36 | Freeing all allocated blocks in any order gives back the one free block of the original size |
| HeapLinks.FindFit | kernel/memory.c:49-69 | The walk finds the first node with room, and decides between split and replacement |
| HeapLinks.SplitFree | kernel/memory.c:97-120 | As written, the remainder takes the block's place in the doubly linked free list |
| HeapLinks.ReplaceFree | kernel/memory.c:121-128 | The block leaves the free list properly if and only if the repair is made or it was the only free block |
| HeapLinks.InsertAllocated | kernel/memory.c:130-154 | The block enters the allocated list properly if and only if the repair is made, the list was empty, or some allocated block is below |
| HeapLinks.RemoveAllocated | kernel/memory.c:189-204 | As written, the block leaves the allocated list properly |
| HeapLinks.MergeBelow | kernel/memory.c:238-260 | As written, the backward merge, with or without the forward one, keeps the free list linked and adds up the sizes |
| HeapLinks.LinkFreed | kernel/memory.c:261-287 | With a free block below that does not touch, the free list stays linked if and only if the repair is made |
| HeapLinks.LinkFirst | kernel/memory.c:289-310 | As written, a block below all free blocks becomes the first, merging forward if it touches |
| HeapLinks.Coalesce | kernel/memory.c:227-310 | All four branches together, with the exact condition |
| HeapLists.FitPosition | kernel/memory.c:49-69 | The first list node with room is the lowest free block that fits, and there is none exactly when no block fits |
| HeapLists.CutPosition | kernel/memory.c:73-93 | The walk by address stops where the block belongs in the other list |
| HeapLists.HeaderPosition | kernel/memory.c:167-187 | The search finds the header exactly when the pointer is that of an allocated block |
| HeapLists.AllocateOnLists | kernel/memory.c:97-154 | What allocation means for the two address-ordered lists |
| HeapLists.ReleaseOnLists | kernel/memory.c:189-310 | What freeing means for them |
| HeapFree.FreeBlock | kernel/memory.c:167-312 | On right lists free_memory takes the block out and in where its address belongs; on the two kinds of wrong free list that allocation leaves, it restores the first node, or makes the block its own predecessor |
| HeapState.Take | kernel/memory.c:46-156 | NULL exactly when no free block fits; otherwise the payload of the lowest fitting block, and headers that describe the new row of blocks if and only if repaired or the stated condition holds |
| HeapState.Give | kernel/memory.c:167-312 | 1 exactly for a pointer that is not allocated, with nothing changed; otherwise headers that describe the coalesced row if and only if repaired or the stated condition holds |
| HeapState.UndoneSoundly | kernel/memory.c:227-310 | Right after an allocation that keeps the lists, freeing the block keeps those of the code as written if and only if no free block lies below it |
| HeapState.LeftBeheaded | kernel/memory.c:121-128 | What the code as written leaves of the free list when it gives its first block away whole: links that lead forward, without the block |
| HeapState.LeftAstray | kernel/memory.c:121-147 | And when it gives a later one away: links that lead to the block and on along the allocated list |
| HeapState.TakeAndGive | kernel/memory.c:38-313 | allocate_memory and free_memory of its result: 1 exactly when the block is not found again, otherwise headers that describe the heap as it was if and only if repaired or the stated condition holds |
| HeapState.Heap.AllocateAndFree | kernel/memory.c:38-313 | On every heap the round trip leaves lists that describe it as it was if and only if repaired, or the block is found again and no free block lies below it |
| HeapState.HoleReached | kernel/memory.c:38-313 | Four requests on a fresh heap lead to the row of blocks below |
| HeapState.HoleSteps | kernel/memory.c:38-313 | Each of the four is one that the code as written serves with right lists |
| HeapState.AsWrittenFails | kernel/memory.c:121-147 | In that heap each of the conditions for the code as written is violated by some request |
| HeapState.BuildHole | kernel/memory.c:38-313 | The code as written, from a fresh object to that heap, with lists that describe it |
| HeapState.BreakLists | kernel/memory.c:121-287 | One of four further requests, and its lists no longer describe the heap |
| HeapState.Heap.InitializeHeap | kernel/memory.c:17-36 | The first call makes one free block of the whole heap, later calls do nothing |
| HeapState.Heap.AllocateMemory | kernel/memory.c:38-157 | The object's allocation, with both lists valid after it if and only if repaired or the condition holds |
| HeapState.Heap.FreeMemory | kernel/memory.c:159-313 | The same for freeing |
| LineEditor.CloseGap | kernel/serial.c:95-98 | The shift-left loop |
| LineEditor.OpenGap | kernel/serial.c:177-180 | The shift-right loop |
| LineEditor.SendRedraw | kernel/serial.c:184-194 | The echo loops send the text from the left margin and step back to the cursor |
| LineEditor.HandleKey | kernel/serial.c:91-195 | In place, each key does to buffer and cursor what it means, echoes what it should, and keeps a zeroed buffer terminated |
| LineEditor.ReadKey | kernel/serial.c:89-170 | How bytes spell keys, escape sequences included |
| LineEditor.PollKeys | kernel/serial.c:81-198 | The loop computes the edited line and its echo for every input |
| LineEditor.SerialPoll | kernel/serial.c:72-199 | serial_poll refines insert, backspace, delete, left and right on (text, cursor), stays within len bytes, always leaves a NUL in the last of them, and NULs behind the text in a buffer that was zeroed |
| Keystrokes.TypeLeft | kernel/serial.c:149-158 | ESC [ D moves the cursor left by one and sends a backspace, unless it is at the start |
| Keystrokes.TypeRight | kernel/serial.c:159-167 | ESC [ C moves it right by one and sends the same, unless it is at the end |
| Keystrokes.TypeBackspace | kernel/serial.c:91-114 | 0x08 removes the byte before the cursor |
| Keystrokes.TypeDelete | kernel/serial.c:115-140 | 0x7F removes the byte at the cursor |
| Keystrokes.TypeText | kernel/serial.c:171-195 | Printable bytes, the space, the tab, the vertical tab and the form feed enter the text at the cursor |
| Keystrokes.TypeOther | kernel/serial.c:141-171 | All other bytes and escape sequences do nothing |
| Keystrokes.LineEnds | kernel/serial.c:81-198 | LF, CR, a full buffer or the end of the input end the line, and SerialPoll returns what the session has come to |
| Keystrokes.RedrawIs | kernel/serial.c:101-114 | What a redraw sends, byte for byte |
| Terminal.EchoShows | kernel/serial.c:102-194 | After every key the terminal shows the text padded with spaces, with its cursor at the edit cursor |
| Terminal.SessionShows | kernel/serial.c:81-197 | The same for whole sessions, on any line wider than the buffer |
| Vm.FindFree | kernel/core.c:370-380 | find_free returns the lowest unmarked frame, or -1 when all are marked |
| Vm.SetBit | kernel/core.c:383-389 | set_bit marks that frame and no other |
| Vm.Machine.PhysicalAlloc | kernel/core.c:355-365 | kmalloc before paging: memory in order; an aligned request skips to the next page boundary even from a boundary |
| Vm.Machine.GetPage | kernel/core.c:318-338 | A missing page table is made, on a page boundary; nothing else changes |
| Vm.Machine.NewFrame | kernel/core.c:395-412 | An unmapped page gets the lowest free frame; panic exactly when there is none |
| Vm.MapNext | kernel/core.c:428-436 | The next page of either loop continues the layout: page k has frame k, heap pages have the frames after those |
| Vm.Machine.MapIdentity | kernel/core.c:428-430 | The identity loop ends although its bound grows, exactly at the end of the memory allocated by then plus 64 KB, tables included, and maps page k to frame k |
| Vm.Machine.MapHeap | kernel/core.c:434-436 | The heap loop maps sixteen more pages, or panics when frames run out |
| Vm.Machine.VmInit | kernel/core.c:414-439 | vm_init panics if and only if the kernel image ends at 0x3FBC000 or higher; otherwise the identity loop stops at the first page that its growing bound does not reach beyond, which fixes where allocation ends, every page up to there and the sixteen heap pages are present and writeable for the kernel alone on the frames the layout says, all others absent, the tables lie apart on page boundaries, and no address wraps |
| Vm.PagesMapped | kernel/core.c:395-439 | Which pages are present at the end, with which rights, on which frames |
| Vm.PagesNeeded | kernel/core.c:428-436 | How far the identity loop gets decides whether the frames suffice, and the end of the image decides both |
| Vm.IdentityMapped | kernel/core.c:425-439 | Allocated memory keeps its address when paging starts, and the NULL page is absent |
| Vm.NoSharedFrame | kernel/core.c:391-412 | Different pages never share a frame |
| Tokenizer.SkipLeading | lib/string.c:64-72 | The double loop skips exactly the leading delimiters |
| Tokenizer.FindDelimiter | lib/string.c:79-89 | The search stops at the first delimiter or the end |
| Tokenizer.StrTok.Next | lib/string.c:47-94 | One strtok call: result, static pointer and the NUL written |
| Tokenizer.FirstToken | lib/string.c:47-94 | A call returns the first token as a string of its own and leaves the rest of the text for the next |
| Tokenizer.CallKeeps | lib/string.c:58-62 | The next call may go on where this one stopped, and always further right |
| Tokenizer.RepeatedCalls | lib/string.c:47-94 | Repeated calls return exactly the tokens of the original string, in order, and from then on NULL |
| Tokenizer.LaterCallsLeave | lib/string.c:84 | Calls write only at or after the place they start from, and end with the static pointer NULL |
| Tokenizer.TokensStay | lib/string.c:47-94 | At the end every returned pointer still spells its token in memory |
| Tokenizer.RunsAreMaximal | lib/string.c:47-94 | The tokens are exactly the maximal delimiter-free pieces |
| Tokenizer.RunsInOrder | lib/string.c:47-94 | They come in order, separated by delimiters |
| Tokenizer.TokensOnRuns | lib/string.c:47-94 | Token k is the text of piece k |
| Numbers.StoreDigits | lib/string.c:108-113 | The printing loop stores the digits in reading order |
| Numbers.Itoa | lib/string.c:95-116 | itoa writes the printed form and a NUL, nothing else |
| Numbers.AddressToHex | kernel/comhand.c:1097-1134 | addressToHex writes the prefix, the printed form and a NUL, nothing else |
| Numbers.Atoi | lib/stdlib.c:4-29 | atoi skips white space, takes one sign and reads digits |
| Numbers.HexToAddress | kernel/comhand.c:1064-1095 | hexToAddress reads an optional prefix and hexadecimal digits of either case, in a 32-bit word |
| Numbers.AtoiReads | lib/stdlib.c:4-29 | What atoi reads: which bytes are white space, signs and digits, and that only 0x2D makes the value negative |
| Numbers.HexReads | kernel/comhand.c:1064-1095 | What hexToAddress reads: the prefix with either x, digits of either case, and the value modulo 2^32 |
| Numbers.PrintedForm | kernel/comhand.c:1097-1134 | Numbers are printed in digits and capital letters without leading zeros |
| Numbers.NegativeForm | lib/string.c:95-116 | itoa prints a negative number without a sign, each digit mirrored at '0' |
| Numbers.DigitsValue | lib/string.c:95-116 | The digits spell the number, with C's truncating division, for either sign |
| Numbers.AtoiOfItoa | lib/stdlib.c:4-29 | Parsing what itoa printed gives the integer back if it is not negative, and 0 otherwise |
| Numbers.AtoiUndoesItoa | lib/stdlib.c:4-29 | So atoi undoes itoa if and only if the integer is not negative |
| Numbers.HexUndoesAddress | kernel/comhand.c:1064-1134 | hexToAddress undoes addressToHex for every 32-bit address |
| Numbers.HexLength | kernel/comhand.c:1097-1134 | addressToHex writes at most eleven bytes |
| Numbers.DecimalLength | lib/string.c:95-116 | itoa writes at most eleven bytes |

## Left out

- SerialDriver.InputInterrupt: a buffer is part of its I/O control block, so that it is also the memory of the requesting process is not captured. That process is blocked while the operation is outstanding.
- KernelState.Kernel.SysCall: each device has its own map of I/O control blocks; the allocator may give any block that no device still uses after the check of the ports, a block just freed included.
- SchedulerRuns.RunKeeps: runs contain deletions of ready processes only. What the deletion of a blocked one leaves behind, an operation with a dangling PCB, is not followed further.
- KernelState.Kernel.Open: what lies behind the table of speeds is a parameter; a division by a speed of 0 found there is not modelled.
- The wait loop appears as a sequence of turns, one per event: `hlt` itself and the interrupt-enable flag are not modelled, and a handler runs as one step.
- A context is a record of eax, ebx, ecx and edx; `pcb_context_init`, stacks and the memory behind PCBs are left out, and so is the result of freeing them.
- Port programming and baud rates in `serial_init`, `serial_open` and `serial_close`, the demultiplexing in `serial_interrupt`, and `serial_out`.
- Shutdown.
- Prompts, menus, show commands, colours, clock and alarms; set priority is one step on a PCB that is still queued.
- HeapLinks.LinkFreed: the test at kernel/memory.c:282 is not a statement of the method, because it can never hold there.
- HeapState.Heap.AllocateMemory: sizes are unbounded, so adding the header size is assumed not to wrap.
- LineEditor.SerialPoll: the input is a finite sequence of bytes; the method returns where the original would go on polling. Reads inside an escape sequence take the next byte of the sequence although the original does not wait for it.
- Terminal.EchoShows: a line with tabs, form feeds or vertical tabs in it is excluded, as terminals differ in what they do with them.
- Terminal.SessionShows: the same for sessions in which one of them is typed.
- Vm.FindFree: a bitmap word is the set of its one bits, so shifts and masks are not modelled as such.
- Vm.Machine.VmInit: assumes a kernel image that ends beyond the first page (kernel/link.ld:4-22) and far enough below 4 GB, and zeroed page tables. kmalloc after paging is on, and the loading of the control registers, are not part of this model.
- Numbers.Atoi: the result is an unbounded integer; overflow in the original is undefined.
- `strlen`, `memcpy`, `memset` and the process bodies in user/system.c would only add easy members.
