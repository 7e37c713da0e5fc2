/**
 What each system call and PCB command achieves, in terms of the registers of the call and of who stands where
 (kernel/sys_call.c:28-218, kernel/serial.c:606-691, kernel/comhand.c:577-579, 692-758).
 */
module Calls {
  import opened Common
  import opened PcbQueues
  import opened Devices
  import opened Scheduler
  import opened SchedulerInv
  import opened SchedulerRuns
  import opened Guarantees
  import opened Returns

  // ---------------------------------------------------------------- READ and WRITE

  /**
   A device accepts a request exactly from READ (2) or WRITE (3) of a running process with a buffer, a length, the
   device's port, an open device and memory for the request; the request is for that process, buffer and length.
   */
  lemma AcceptedWhen(s: Sys, e: Event, d: nat)
    requires Inv(s) && Enabled(s, e) && e.SysReq? && d < 4
    ensures var c := e.ctxt;
            Step(s, e).sys.devs[d].accepted == s.devs[d].accepted +
            if && (c.eax == 2 || c.eax == 3) && s.running != NULL && c.ecx != 0 && 0 < c.edx
               && ((d == 0 && c.ebx == 0x3f8) || (d == 1 && c.ebx == 0x2f8) ||
                   (d == 2 && c.ebx == 0x3e8) || (d == 3 && c.ebx == 0x2e8))
               && s.devs[d].open && e.memOk
            then [Op(s.running, c.eax == 3, c.edx, e.data[..c.edx])]
            else []
  {
    hide Core, Step;
    LogsStep(s, e, d);
  }

  /** The check of the devices opens and closes none, and leaves the running process alone. */
  lemma CheckLeaves(s: Sys, d: nat)
    requires Inv(s) && d < 4
    ensures CheckAll(s).0.devs[d].open == s.devs[d].open && CheckAll(s).0.running == s.running
    ensures CheckAll(s).0.original == s.original && CheckAll(s).0.procs.Keys == s.procs.Keys
    ensures CheckAll(s).0.fault == s.fault && CheckAll(s).0.waiting == s.waiting
  {
    hide Core, CheckUpTo;
    CheckUpToKeeps(s, 4);
    CheckUpToLogs(s, 4, d);
    CheckUpToReady(s, 4);
  }

  /** Otherwise nothing happens beyond the check of the devices, and the caller finds 0 in eax, or -1 if nobody runs. */
  lemma RefusedWhen(s: Sys, e: Event)
    requires Inv(s) && Enabled(s, e) && e.SysReq? && (e.ctxt.eax == 2 || e.ctxt.eax == 3)
    requires var c := e.ctxt;
             || s.running == NULL || c.ecx == 0 || c.edx == 0 || !e.memOk
             || (c.ebx != 0x3f8 && c.ebx != 0x2f8 && c.ebx != 0x3e8 && c.ebx != 0x2e8)
             || (c.ebx == 0x3f8 && !s.devs[0].open) || (c.ebx == 0x2f8 && !s.devs[1].open)
             || (c.ebx == 0x3e8 && !s.devs[2].open) || (c.ebx == 0x2e8 && !s.devs[3].open)
    ensures Step(s, e) == Outcome(CheckAll(s).0, Stay(if s.running == NULL then -1 else 0))
  {
    hide Core, CheckUpTo, Accept, SwitchAway, Enqueue;
    CheckLeaves(s, 0);
    CheckLeaves(s, 1);
    CheckLeaves(s, 2);
    CheckLeaves(s, 3);
  }

  /** Any other operation is answered with 0 after the check. */
  lemma UnknownCall(s: Sys, e: Event)
    requires Inv(s) && Enabled(s, e) && e.SysReq? && !(0 <= e.ctxt.eax <= 3)
    ensures Step(s, e) == Outcome(CheckAll(s).0, Stay(0))
  {
    hide CheckUpTo;
  }

  // ---------------------------------------------------------------- EXIT

  /**
   EXIT with nobody left to run: the context saved first is loaded, nothing is kept of it, and the caller is gone.
   Somebody is left if a process is ready and active, or a finished operation makes one so.
   */
  lemma ExitToKernel(s: Sys, e: Event)
    requires Inv(s) && Enabled(s, e) && e.SysReq? && e.ctxt.eax == 0 && s.queues[0] == []
    requires forall d :: 0 <= d < 4 && s.devs[d].event ==>
               s.devs[d].ops != [] && s.devs[d].ops[0].rq in s.procs &&
               s.procs[s.devs[d].ops[0].rq].state.dispatch == Suspended
    ensures s.original.Some? && s.running in s.procs
    ensures var o := Step(s, e);
            && o.reply == Load(s.original.value)
            && o.sys.running == NULL && o.sys.original == None
            && o.sys.procs.Keys == s.procs.Keys - {s.running} && o.sys.queues[0] == []
  {
    hide Core, CheckUpTo, Dispatch, OnlySuspendedUpTo;
    OnlySuspendedAll(s, 4);
    CheckUpToReady(s, 4);
    CheckLeaves(s, 0);
    CoreParts(s);
    hide Queued;
  }

  /** Otherwise the most urgent ready process runs from its saved context, and the kernel's own is kept. */
  lemma ExitToNext(s: Sys, e: Event)
    requires Inv(s) && Enabled(s, e) && e.SysReq? && e.ctxt.eax == 0 && CheckAll(s).0.queues[0] != []
    ensures var s1, o := CheckAll(s).0, Step(s, e); var next := s1.queues[0][0];
            && next in s1.procs && s1.procs[next].state.exec == Ready && next != s.running
            && o.reply == Load(s1.procs[next].ctxt) && o.sys.running == next && o.sys.original == s.original
            && o.sys.procs.Keys == s.procs.Keys - {s.running}
  {
    hide Core, CheckUpTo, Dispatch;
    CheckLeaves(s, 0);
    CheckUpToKeeps(s, 4);
    var s1 := CheckAll(s).0;
    CoreParts(s1);
    var s2 := s1.(procs := s1.procs - {s1.running});
    DropKeeps(s1, s2, s1.running);
    ReadyHead(s1);
    ReadyHead(s2);
    hide Queued;
    DispatchShape(s2);
  }

  // ---------------------------------------------------------------- the context that EXIT goes back to

  predicate IsIdle(e: Event) {
    e.SysReq? && e.ctxt.eax == 1
  }

  /** EXIT after which nobody runs: control went back to where the first IDLE came from. */
  predicate ToKernel(s: Sys, e: Event)
    requires WellFormed(e)
  {
    e.SysReq? && e.ctxt.eax == 0 && Step(s, e).sys.running == NULL
  }

  /** One event: IDLE saves its context if none is saved, EXIT to the kernel uses it up, nothing else touches it. */
  lemma OriginalStep(s: Sys, e: Event)
    requires Inv(s) && Enabled(s, e)
    ensures Step(s, e).sys.original ==
            if IsIdle(e) && s.original == None then Some(e.ctxt.(eax := 0))
            else if ToKernel(s, e) then None
            else s.original
  {
    hide Core, CheckUpTo, WaitTurn, Input, Output, Enqueue, Detach, Transfer, Idle, Exit;
    if e.SysReq? {
      CheckLeaves(s, 0);
      OriginalInCall(s, e);
    } else if e.WaitLoop? {
      CheckLeaves(s, 0);
      OriginalInTurn(s);
    } else {
      MovesShapes();
    }
  }

  lemma OriginalInTurn(s: Sys)
    ensures WaitTurn(s).sys.original == CheckAll(s).0.original
  {
    hide CheckUpTo;
  }

  lemma OriginalInCall(s: Sys, e: Event)
    requires Inv(s) && Enabled(s, e) && e.SysReq?
    ensures Step(s, e).sys.original ==
            if IsIdle(e) && CheckAll(s).0.original == None then Some(e.ctxt.(eax := 0))
            else if ToKernel(s, e) then None
            else CheckAll(s).0.original
  {
    hide Core, CheckUpTo, Transfer, Idle, Exit;
    CheckUpToKeeps(s, 4);
    var s1, c := CheckAll(s).0, e.ctxt.(eax := 0);
    if s1.running != NULL {
      if e.ctxt.eax == OP_READ || e.ctxt.eax == OP_WRITE {
        OriginalInTransfer(s1, s1.running, c, e.ctxt.eax == OP_WRITE, e.data, e.memOk);
      } else if e.ctxt.eax == OP_EXIT {
        OriginalInExit(s1);
      }
    }
    OriginalInIdle(s1, c);
  }

  lemma OriginalInTransfer(s: Sys, p: Ptr, ctxt: Context, write: bool, data: seq<byte>, memOk: bool)
    ensures Transfer(s, p, ctxt, write, data, memOk).sys.original == s.original
  {
    hide Accept, Enqueue, Detach, ScheduleCode;
    MovesShapes();
  }

  lemma OriginalInIdle(s: Sys, ctxt: Context)
    ensures Idle(s, ctxt).sys.original == if s.original.None? then Some(ctxt) else s.original
  {
    hide Enqueue, Detach;
    MovesShapes();
  }

  lemma OriginalInExit(s: Sys)
    requires Core(s) && s.running != NULL
    ensures var o := Exit(s, s.running);
            o.sys.original == if o.sys.running == NULL then None else s.original
  {
    CoreParts(s);
    hide Core, Dispatch;
    var s1 := s.(procs := s.procs - {s.running});
    DropKeeps(s, s1, s.running);
    hide Queued;
    if s1.queues[0] != [] {
      ReadyHead(s1);
      DispatchShape(s1);
    }
  }

  /** No event from number `m` on went back to the kernel, and the one before did, or there is none. */
  ghost predicate Since(es: seq<Event>, m: nat)
    requires Feasible(INITIAL, es)
  {
    && m <= |es|
    && (m > 0 ==> WentBack(es, m - 1))
    && forall j :: m <= j < |es| ==> !WentBack(es, j)
  }

  /** Event `j` of the run is an EXIT to the kernel. */
  ghost predicate WentBack(es: seq<Event>, j: nat)
    requires Feasible(INITIAL, es) && j < |es|
  {
    Feasible(INITIAL, es[..j]) && WellFormed(es[j]) && ToKernel(After(INITIAL, es[..j]), es[j])
  }

  lemma WentBackEarlier(es: seq<Event>, j: nat)
    requires Feasible(INITIAL, es) && es != [] && Feasible(INITIAL, es[..|es| - 1]) && j < |es| - 1
    ensures WentBack(es, j) == WentBack(es[..|es| - 1], j)
  {
    assert es[..|es| - 1][..j] == es[..j];
  }

  /** `original` is the context of the first IDLE from event `m` on, which is event `k`, or there is none. */
  ghost predicate Saved(es: seq<Event>, m: nat, k: nat, original: Option<Context>) {
    && m <= k <= |es| && (forall j :: m <= j < k ==> !IsIdle(es[j]))
    && if k == |es| then original == None else IsIdle(es[k]) && original == Some(es[k].ctxt.(eax := 0))
  }

  /** One event more, which may be an EXIT to the kernel. */
  lemma NextSaved(es: seq<Event>, m: nat, k: nat, was: Option<Context>, now: Option<Context>, back: bool)
    returns (k': nat)
    requires es != [] && Saved(es[..|es| - 1], m, k, was) && !(IsIdle(es[|es| - 1]) && back)
    requires now == if IsIdle(es[|es| - 1]) && was == None then Some(es[|es| - 1].ctxt.(eax := 0))
                    else if back then None else was
    ensures Saved(es, if back then |es| else m, k', now)
  {
    hide IsIdle;
    assert forall j :: 0 <= j < |es| - 1 ==> es[..|es| - 1][j] == es[j];
    k' := if back || (k == |es| - 1 && !IsIdle(es[|es| - 1])) then |es| else k;
  }

  /**
   On every run the saved context is that of the first IDLE since control last went back to the kernel, or since
   power-on, with 0 in eax; there is none if there was no IDLE.
   */
  lemma {:induction false} FirstIdleSaved(es: seq<Event>) returns (m: nat, k: nat)
    requires Feasible(INITIAL, es)
    ensures Since(es, m) && Saved(es, m, k, After(INITIAL, es).original)
    decreases |es|
  {
    if es == [] {
      m, k := 0, 0;
    } else {
      hide Inv, Step, Enabled, Feasible, After, WentBack, Since, IsIdle, ToKernel, WellFormed, Saved;
      var es', e := es[..|es| - 1], es[|es| - 1];
      LastEvent(es);
      m, k := FirstIdleSaved(es');
      var s := After(INITIAL, es');
      OriginalStep(s, e);
      NotBoth(s, e);
      LastWentBack(es);
      SinceGrows(es, m);
      k := NextSaved(es, m, k, s.original, After(INITIAL, es).original, ToKernel(s, e));
      m := if ToKernel(s, e) then |es| else m;
    }
  }

  lemma NotBoth(s: Sys, e: Event)
    requires WellFormed(e)
    ensures !(IsIdle(e) && ToKernel(s, e))
  {
    hide Step;
  }

  lemma SinceGrows(es: seq<Event>, m: nat)
    requires Feasible(INITIAL, es) && es != [] && Feasible(INITIAL, es[..|es| - 1]) && Since(es[..|es| - 1], m)
    ensures WentBack(es, |es| - 1) ==> Since(es, |es|)
    ensures !WentBack(es, |es| - 1) ==> Since(es, m)
  {
    hide Feasible, WentBack;
    forall j | 0 <= j < |es| - 1 ensures WentBack(es, j) == WentBack(es[..|es| - 1], j) {
      WentBackEarlier(es, j);
    }
  }

  lemma LastWentBack(es: seq<Event>)
    requires Feasible(INITIAL, es) && es != [] && Feasible(INITIAL, es[..|es| - 1]) && WellFormed(es[|es| - 1])
    ensures WentBack(es, |es| - 1) == ToKernel(After(INITIAL, es[..|es| - 1]), es[|es| - 1])
  {
  }

  /** EXIT with nobody left to run, after any run: control goes back to where the first IDLE since then came from. */
  lemma ExitResumesFirstIdle(es: seq<Event>, e: Event) returns (m: nat, k: nat)
    requires Feasible(INITIAL, es)
    requires var s := After(INITIAL, es);
             && Enabled(s, e) && e.SysReq? && e.ctxt.eax == 0 && s.queues[0] == []
             && forall d :: 0 <= d < 4 && s.devs[d].event ==>
                  s.devs[d].ops != [] && s.devs[d].ops[0].rq in s.procs &&
                  s.procs[s.devs[d].ops[0].rq].state.dispatch == Suspended
    ensures Since(es, m) && m <= k < |es| && IsIdle(es[k]) && forall j :: m <= j < k ==> !IsIdle(es[j])
    ensures Step(After(INITIAL, es), e).reply == Load(es[k].ctxt.(eax := 0))
  {
    hide Inv, Step, Enabled, Feasible, After, WentBack;
    InitiallyInv();
    RunKeeps(INITIAL, es);
    ExitToKernel(After(INITIAL, es), e);
    m, k := FirstIdleSaved(es);
  }

  // ---------------------------------------------------------------- who stands where

  /** The queue without `p`. */
  function Without(q: seq<Ptr>, p: Ptr): seq<Ptr> {
    if q == [] then [] else (if q[0] == p then [] else [q[0]]) + Without(q[1..], p)
  }

  /** `p` is in queue 0 to 3 as it is ready or not, active or not, and in no other. */
  ghost predicate InItsQueue(s: Sys, p: Ptr)
    requires p in s.procs
  {
    var state := s.procs[p].state;
    && (p in s.queues[0] <==> state.exec == Ready && state.dispatch == Active)
    && (p in s.queues[1] <==> state.exec == Blocked && state.dispatch == Active)
    && (p in s.queues[2] <==> state.exec == Ready && state.dispatch == Suspended)
    && (p in s.queues[3] <==> state.exec == Blocked && state.dispatch == Suspended)
  }

  /** Behind all that are at least as urgent, in front of all that are less. */
  ghost predicate InTurn(procs: map<Ptr, Proc>, q: seq<Ptr>, p: Ptr)
    requires p in procs
  {
    exists i :: 0 <= i < |q| && q[i] == p
      && (forall j :: 0 <= j < i ==> q[j] in procs && procs[q[j]].state.pri <= procs[p].state.pri)
      && (forall j :: i < j < |q| ==> q[j] in procs && procs[p].state.pri < procs[q[j]].state.pri)
  }

  ghost predicate AtEnd(q: seq<Ptr>, p: Ptr) {
    q != [] && q[|q| - 1] == p && p !in q[..|q| - 1]
  }

  /** `p` has become `proc` and stands where it belongs, by priority or last; nothing else changed. */
  ghost predicate Entered(s: Sys, s': Sys, p: Ptr, proc: Proc) {
    && s' == s.(queues := s'.queues, procs := s.procs[p := proc])
    && (forall k :: 0 <= k < 4 ==> Without(s'.queues[k], p) == Without(s.queues[k], p))
    && InItsQueue(s', p)
    && (proc.state.exec == Ready ==>
          InTurn(s'.procs, s'.queues[if proc.state.dispatch == Active then 0 else 2], p))
    && (proc.state.exec == Blocked ==> AtEnd(s'.queues[if proc.state.dispatch == Active then 1 else 3], p))
  }

  lemma {:induction false} WithoutAbsent(q: seq<Ptr>, p: Ptr)
    requires p !in q
    ensures Without(q, p) == q
  {
    if q != [] {
      WithoutAbsent(q[1..], p);
    }
  }

  lemma {:induction false} WithoutParts(a: seq<Ptr>, b: seq<Ptr>, p: Ptr)
    ensures Without(a + b, p) == Without(a, p) + Without(b, p)
  {
    if a == [] {
      assert a + b == b;
    } else {
      assert (a + b)[1..] == a[1..] + b;
      var head := if a[0] == p then [] else [a[0]];
      assert Without(a + b, p) == head + Without(a[1..] + b, p);
      assert Without(a, p) == head + Without(a[1..], p);
      hide Without;
      WithoutParts(a[1..], b, p);
      Associate(head, Without(a[1..], p), Without(b, p));
    }
  }

  /** Taking `p` out is all that happens to a queue. */
  lemma WithoutRemoved(q: seq<Ptr>, p: Ptr)
    requires Distinct(q) && p in q
    ensures Without(q, p) == RemoveAt(q, IndexOf(q, p))
  {
    hide IndexOf, Without, Distinct;
    var k := IndexOf(q, p);
    OnlyThere(q, p, k);
    WithoutAround(q[..k], q[k + 1..], p);
    assert q == q[..k] + [p] + q[k + 1..];
    assert RemoveAt(q, k) == q[..k] + q[k + 1..];
  }

  lemma OnlyThere(q: seq<Ptr>, p: Ptr, k: nat)
    requires Distinct(q) && k < |q| && q[k] == p
    ensures p !in q[..k] && p !in q[k + 1..]
  {
    forall j | 0 <= j < |q| && j != k ensures q[j] != p {
    }
  }

  /** And putting it in. */
  lemma WithoutInserted(q: seq<Ptr>, p: Ptr, i: nat)
    requires p !in q && i <= |q|
    ensures Without(InsertAt(q, i, p), p) == q
  {
    assert p !in q[..i] && p !in q[i..];
    WithoutAround(q[..i], q[i..], p);
    assert q[..i] + q[i..] == q;
  }

  lemma WithoutItself(p: Ptr)
    ensures Without([p], p) == []
  {
  }

  lemma WithoutAround(a: seq<Ptr>, b: seq<Ptr>, p: Ptr)
    requires p !in a && p !in b
    ensures Without(a + [p] + b, p) == a + b
  {
    hide Without;
    WithoutItself(p);
    WithoutParts(a + [p], b, p);
    WithoutParts(a, [p], p);
    WithoutAbsent(a, p);
    WithoutAbsent(b, p);
  }

  /** pcb_remove: the others of every queue stay in their order. */
  lemma DetachLeavesOrder(s: Sys, p: Ptr)
    requires Queued(s, {}) && InAQueue(s, p)
    ensures forall k :: 0 <= k < 4 ==> Detach(s, p).queues[k] == Without(s.queues[k], p)
  {
    hide IndexOf, RemoveAt, Without;
    var c := QueueOf(s.procs, p);
    forall k: nat | k < 4 ensures Detach(s, p).queues[k] == Without(s.queues[k], p) {
      assert QueueOk(s, {}, k);
      if k == c {
        WithoutRemoved(s.queues[k], p);
      } else {
        assert p in s.queues[k] ==> Belongs(s, {}, p, k);
        WithoutAbsent(s.queues[k], p);
      }
    }
  }

  /** pcb_insert: `p` stands where it belongs. */
  lemma EnqueueEnters(s: Sys, hand: set<Ptr>, p: Ptr)
    requires Queued(s, hand) && p in hand && p in s.procs && s.procs[p].state.exec != Running
    ensures Entered(s, Enqueue(s, p), p, s.procs[p])
  {
    hide IndexOf, InsertAt, Without, Queued;
    var c := QueueOf(s.procs, p);
    var q, i, s' := s.queues[c], EntryIndex(s, p), Enqueue(s, p);
    forall k: nat | k < 4
      ensures p !in s.queues[k] && Without(s'.queues[k], p) == Without(s.queues[k], p)
      ensures p in s'.queues[k] <==> k == c
    {
      InHandApart(s, hand, p, k);
      WithoutAbsent(s.queues[k], p);
      if k == c {
        WithoutInserted(q, p, i);
        assert s'.queues[k][i] == p;
      }
    }
    PlaceInTurn(s, hand, p);
    MovesShape(s, p);
    assert s.procs[p := s.procs[p]] == s.procs;
  }

  lemma InHandApart(s: Sys, hand: set<Ptr>, p: Ptr, k: nat)
    requires Queued(s, hand) && p in hand && k < 4
    ensures p !in s.queues[k] && Distinct(s.queues[k])
    ensures forall x :: x in s.queues[k] ==> x in s.procs
    ensures IsPriorityQueue(k) ==> Ascending(Pris(s.procs, s.queues[k]))
  {
    assert QueueOk(s, hand, k);
    forall x | x in s.queues[k] ensures x in s.procs && x != p {
      assert Belongs(s, hand, x, k);
    }
  }

  lemma PlaceInTurn(s: Sys, hand: set<Ptr>, p: Ptr)
    requires Queued(s, hand) && p in hand && p in s.procs && s.procs[p].state.exec != Running
    ensures var c, s' := QueueOf(s.procs, p), Enqueue(s, p);
            && (IsPriorityQueue(c) ==> InTurn(s.procs, s'.queues[c], p))
            && (!IsPriorityQueue(c) ==> AtEnd(s'.queues[c], p))
  {
    hide Queued;
    var c := QueueOf(s.procs, p);
    var q, i := s.queues[c], EntryIndex(s, p);
    InHandApart(s, hand, p, c);
    var q' := InsertAt(q, i, p);
    assert Enqueue(s, p).queues[c] == q' && q'[i] == p;
    if IsPriorityQueue(c) {
      var pris := Pris(s.procs, q);
      forall j | 0 <= j < |q'| && j != i
        ensures q'[j] in s.procs
        ensures if j < i then s.procs[q'[j]].state.pri <= s.procs[p].state.pri
                else s.procs[p].state.pri < s.procs[q'[j]].state.pri
      {
        var l := if j < i then j else j - 1;
        assert q'[j] == q[l] && q[l] in q && pris[l] == s.procs[q[l]].state.pri;
        assert j > i ==> pris[i] <= pris[l];
      }
    } else {
      assert q'[..|q'| - 1] == q;
    }
  }

  // ---------------------------------------------------------------- PCB commands

  lemma ReenterEnters(s: Sys, p: Ptr, proc: Proc)
    requires Queued(s, {}) && InAQueue(s, p) && proc.state.exec != Running
    ensures Entered(s, Reentered(s, p, proc), p, proc)
  {
    hide Queued, Detach, Enqueue, Without, InTurn, AtEnd;
    var none: set<Ptr> := {};
    assert none + {p} == {p};
    QueuedIsNotRunning(s, p);
    DetachKeeps(s, none, p);
    DetachLeavesOrder(s, p);
    MovesShape(s, p);
    var s1 := Detach(s, p);
    var s2 := s1.(procs := s1.procs[p := proc]);
    UpdateKeeps(s1, s2, {p}, p);
    EnqueueEnters(s2, {p}, p);
    forall k: nat | k < 4 ensures Without(s2.queues[k], p) == Without(s.queues[k], p) {
      InHandApart(s2, {p}, p, k);
      WithoutAbsent(s2.queues[k], p);
    }
  }

  /** Resume makes the process active and puts it where it belongs; nothing else changes. */
  lemma ResumeDoes(s: Sys, p: Ptr)
    requires Inv(s) && Enabled(s, ResumePcb(p))
    ensures var o, proc := Step(s, ResumePcb(p)), s.procs[p];
            && o.reply == Pending
            && Entered(s, o.sys, p, Proc(PcbState(proc.state.exec, Active, proc.state.cls, proc.state.pri), proc.ctxt))
  {
    hide Entered, Enqueue, Detach, Reentered;
    CoreParts(s);
    hide Core;
    CommandsRequeue(s, p, 0);
    QueuedIsNotRunning(s, p);
    ReenterEnters(s, p, s.procs[p].(state := s.procs[p].state.(dispatch := Active)));
  }

  /** Suspend does the opposite to a user process, and nothing to a system process. */
  lemma SuspendDoes(s: Sys, p: Ptr)
    requires Inv(s) && Enabled(s, SuspendPcb(p))
    ensures var o, proc := Step(s, SuspendPcb(p)), s.procs[p];
            && o.reply == Pending
            && (proc.state.cls == System ==> o.sys == s)
            && (proc.state.cls == User ==>
                  Entered(s, o.sys, p,
                          Proc(PcbState(proc.state.exec, Suspended, User, proc.state.pri), proc.ctxt)))
  {
    hide Entered, Enqueue, Detach, Reentered;
    CoreParts(s);
    hide Core;
    CommandsRequeue(s, p, 0);
    QueuedIsNotRunning(s, p);
    ReenterEnters(s, p, s.procs[p].(state := s.procs[p].state.(dispatch := Suspended)));
  }

  /** Set priority gives the process its new place. */
  lemma SetPriorityDoes(s: Sys, p: Ptr, pri: nat)
    requires Inv(s) && Enabled(s, SetPriority(p, pri))
    ensures var o, proc := Step(s, SetPriority(p, pri)), s.procs[p];
            && o.reply == Pending
            && Entered(s, o.sys, p,
                       Proc(PcbState(proc.state.exec, proc.state.dispatch, proc.state.cls, pri), proc.ctxt))
  {
    hide Entered, Enqueue, Detach, Reentered;
    CoreParts(s);
    hide Core;
    CommandsRequeue(s, p, pri);
    QueuedIsNotRunning(s, p);
    ReenterEnters(s, p, s.procs[p].(state := s.procs[p].state.(pri := pri)));
  }

  /** A new process is ready and active and enters among the ready ones. */
  lemma CreateDoes(s: Sys, p: Ptr, cls: ClassState, pri: nat, ctxt: Context)
    requires Inv(s) && Enabled(s, CreatePcb(p, cls, pri, ctxt))
    ensures var o := Step(s, CreatePcb(p, cls, pri, ctxt));
            && o.reply == Pending && Entered(s, o.sys, p, Proc(PcbState(Ready, Active, cls, pri), ctxt))
            && forall k :: 0 <= k < 4 ==> p !in s.queues[k]
  {
    hide Entered, Enqueue, Queued, Without;
    CoreParts(s);
    hide Core;
    var none: set<Ptr> := {};
    assert none + {p} == {p};
    TakeInHand(s, none, p);
    var s1 := s.(procs := s.procs[p := Proc(PcbState(Ready, Active, cls, pri), ctxt)]);
    UpdateKeeps(s, s1, {p}, p);
    EnqueueEnters(s1, {p}, p);
    forall k: nat | k < 4 ensures p !in s.queues[k] {
      InHandApart(s1, {p}, p, k);
    }
    EnteredFrom(s, s1, Enqueue(s1, p), p);
  }

  /** A process that is not queued may be rewritten before it enters. */
  lemma EnteredFrom(s: Sys, s1: Sys, s': Sys, p: Ptr)
    requires p in s1.procs && s1 == s.(procs := s.procs[p := s1.procs[p]]) && Entered(s1, s', p, s1.procs[p])
    ensures Entered(s, s', p, s1.procs[p])
  {
  }

  /** Delete takes a user process away, and leaves a system process. */
  lemma DeleteDoes(s: Sys, p: Ptr)
    requires Inv(s) && !s.waiting && InAQueue(s, p)
    ensures var o := Step(s, DeletePcb(p));
            && o.reply == Pending
            && (s.procs[p].state.cls == System ==> o.sys == s)
            && (s.procs[p].state.cls == User ==>
                  && o.sys == s.(queues := o.sys.queues, procs := s.procs - {p})
                  && forall k :: 0 <= k < 4 ==> o.sys.queues[k] == Without(s.queues[k], p))
  {
    hide Detach, Queued, Without, Step, Core, QueueOf;
    CoreParts(s);
    DetachLeavesOrder(s, p);
    MovesShape(s, p);
    DeleteStep(s, p);
  }

  lemma DeleteStep(s: Sys, p: Ptr)
    requires p in s.procs
    ensures var s1 := Detach(s, p);
            Step(s, DeletePcb(p)) ==
            Outcome(if s.procs[p].state.cls == System then s else s1.(procs := s1.procs - {p}), Pending)
  {
    hide Detach;
  }

  // ---------------------------------------------------------------- ports

  /** Opening a closed port resets the ring and the flags; an open port is left alone. */
  lemma OpenPortDoes(s: Sys, d: nat)
    requires d < 4
    ensures var o, dev := Step(s, OpenPort(d)), s.devs[d];
            && o.reply == Pending && o.sys == s.(devs := o.sys.devs)
            && (forall k :: 0 <= k < 4 && k != d ==> o.sys.devs[k] == s.devs[k])
            && o.sys.devs[d] == if dev.open then dev
                                else dev.(open := true, event := false, ringBegin := 0, ringEnd := 0, txInt := false)
  {
  }

  /** Closing disables the port's interrupts; a port with work queued is left alone. */
  lemma ClosePortDoes(s: Sys, d: nat)
    requires d < 4
    ensures var o, dev := Step(s, ClosePort(d)), s.devs[d];
            && o.reply == Pending && o.sys == s.(devs := o.sys.devs)
            && (forall k :: 0 <= k < 4 && k != d ==> o.sys.devs[k] == s.devs[k])
            && o.sys.devs[d] == if dev.open && dev.ops == [] then dev.(open := false, txInt := false) else dev
  {
  }

  // ---------------------------------------------------------------- who runs next

  /** The finished operation at the head of device `d` makes its requester ready, which enters by priority. */
  lemma WakeDoes(s: Sys, d: nat)
    requires Core(s) && d < 4 && s.devs[d].event
    ensures var p, s' := s.devs[d].ops[0].rq, CheckIo(s, d).0;
            && p in s.procs && s.procs[p].state.exec == Blocked
            && Entered(s, s'.(devs := s.devs), p,
                       Proc(s.procs[p].state.(exec := Ready), s.procs[p].ctxt.(eax := s.devs[d].idx)))
  {
    CheckIoShape(s, d);
    CoreParts(s);
    var p := s.devs[d].ops[0].rq;
    BlockedInQueue(s, p);
    hide Core, Wake, Retire, CheckIo, Entered, Reentered, Queued;
    WakeReenters(s, p, s.devs[d].idx);
    var proc := Proc(s.procs[p].state.(exec := Ready), s.procs[p].ctxt.(eax := s.devs[d].idx));
    ReenterEnters(s, p, proc);
    EnteredElsewhere(s, Reentered(s, p, proc), CheckIo(s, d).0.(devs := s.devs), p, proc);
  }

  lemma BlockedInQueue(s: Sys, p: Ptr)
    requires Queued(s, {}) && IsBlocked(s, p)
    ensures InAQueue(s, p)
  {
  }

  lemma EnteredElsewhere(s: Sys, s': Sys, s'': Sys, p: Ptr, proc: Proc)
    requires Entered(s, s', p, proc) && s'' == s'.(devs := s.devs)
    ensures Entered(s, s'', p, proc)
  {
  }

  /** Who runs after a call that gives the processor up: the head of queue 0, from its saved context, or nobody. */
  ghost predicate NextRuns(s: Sys, o: Outcome) {
    if s.queues[0] == [] then o.reply == Pending && o.sys.running == NULL && o.sys.waiting && o.sys.queues[0] == []
    else
      var next := s.queues[0][0];
      && next in s.procs && next in o.sys.procs
      && o.reply == Load(s.procs[next].ctxt) && o.sys.running == next && !o.sys.waiting
      && o.sys.procs[next] == s.procs[next].(state := s.procs[next].state.(exec := Running))
      && o.sys.queues[0] == s.queues[0][1..]
  }

  lemma DispatchTakesHead(s: Sys)
    requires Queued(s, {}) && s.queues[0] != []
    ensures var next, o := s.queues[0][0], Dispatch(s);
            && next in s.procs
            && o.reply == Load(s.procs[next].ctxt)
            && o.sys == s.(queues := s.queues[0 := s.queues[0][1..]], running := next,
                           procs := s.procs[next := s.procs[next].(state := s.procs[next].state.(exec := Running))])
  {
    hide Queued;
    ReadyHead(s);
    assert IndexOf(s.queues[0], s.queues[0][0]) == 0;
    assert RemoveAt(s.queues[0], 0) == s.queues[0][1..];
  }

  /** An accepted READ or WRITE: the caller waits at the end of queue 1, and the next process runs. */
  lemma TransferSwitches(s: Sys, e: Event, d: nat)
    requires Inv(s) && Enabled(s, e) && d < 4 && Acceptance(s, e, d) != []
    ensures var s1, o, p := CheckAll(s).0, Step(s, e), s.running;
            && p in s1.procs && NextRuns(s1, o)
            && o.sys.queues[1] == s1.queues[1] + [p]
            && o.sys.queues[2] == s1.queues[2] && o.sys.queues[3] == s1.queues[3]
            && o.sys.procs.Keys == s1.procs.Keys
            && o.sys.procs[p] == Proc(s1.procs[p].state.(exec := Blocked), e.ctxt.(eax := 0))
            && forall x :: x in s1.procs && x != p && x != o.sys.running ==> o.sys.procs[x] == s1.procs[x]
  {
    hide Core, CheckUpTo, Transfer, ScheduleCode, NextRuns;
    var s1, c := CheckAll(s).0, e.ctxt.(eax := 0);
    CheckUpToKeeps(s, 4);
    SameAcceptance(s, e, d);
    CodeIgnoresEax(s1.devs, e.ctxt, e.memOk);
    TransferGivesUp(s1, c, e.ctxt.eax == OP_WRITE, e.data, e.memOk);
  }

  lemma TransferGivesUp(s: Sys, ctxt: Context, write: bool, data: seq<byte>, memOk: bool)
    requires Core(s) && s.running != NULL && !s.waiting && ScheduleCode(s.devs, ctxt, memOk) == 0
    requires ctxt.ecx != 0 ==> ctxt.edx <= |data|
    ensures var p, o := s.running, Transfer(s, s.running, ctxt, write, data, memOk);
            && p in s.procs && NextRuns(s, o)
            && o.sys.queues[1] == s.queues[1] + [p]
            && o.sys.queues[2] == s.queues[2] && o.sys.queues[3] == s.queues[3]
            && o.sys.procs.Keys == s.procs.Keys
            && o.sys.procs[p] == Proc(s.procs[p].state.(exec := Blocked), ctxt)
            && forall x :: x in s.procs && x != p && x != o.sys.running ==> o.sys.procs[x] == s.procs[x]
  {
    hide Queued, Ownership, DevicesOk, Accept, Transfer, Blocking, ScheduleCode, Dispatch;
    var p := s.running;
    TransferCases(s, p, ctxt, write, data, memOk);
    ScheduledFits(s, ctxt, data, memOk);
    var d, op := DevNo(ctxt.ebx), Op(p, write, ctxt.edx, data[..ctxt.edx]);
    BlockingKeeps(s, p, ctxt, d, op);
    var dev := Accept(s.devs[d], op).value;
    var s1 := Blocking(s, p, ctxt, d, dev);
    BlockingAppends(s, p, ctxt, d, dev);
    if s1.queues[0] != [] {
      ReadyHead(s1);
      DispatchTakesHead(s1);
    }
  }

  lemma BlockingAppends(s: Sys, p: Ptr, ctxt: Context, d: nat, dev: Dev)
    requires p in s.procs && s.procs[p].state.dispatch == Active && d < 4
    ensures Blocking(s, p, ctxt, d, dev).queues == s.queues[1 := s.queues[1] + [p]]
  {
    assert InsertAt(s.queues[1], |s.queues[1]|, p) == s.queues[1] + [p];
  }

  /** IDLE with nobody else ready: the caller goes on with 0 in eax, and at most its context is saved as the first. */
  lemma IdleStays(s: Sys, e: Event)
    requires Inv(s) && Enabled(s, e) && e.SysReq? && e.ctxt.eax == 1 && CheckAll(s).0.queues[0] == []
    ensures var s1 := CheckAll(s).0;
            Step(s, e) == Outcome(s1.(original := if s1.original == None then Some(e.ctxt.(eax := 0)) else s1.original),
                                  Stay(0))
  {
    hide CheckUpTo, Core;
  }

  /**
   IDLE with somebody ready: the head of queue 0 runs from its saved context. The caller, if a process runs, enters
   among the ready ones with 0 in eax.
   */
  lemma IdleYields(s: Sys, e: Event)
    requires Inv(s) && Enabled(s, e) && e.SysReq? && e.ctxt.eax == 1 && CheckAll(s).0.queues[0] != []
    ensures var s1, o := CheckAll(s).0, Step(s, e); var next, r, s' := s1.queues[0][0], s1.running, o.sys;
            && next in s1.procs && o.reply == Load(s1.procs[next].ctxt) && s'.running == next
            && s'.procs.Keys == s1.procs.Keys && s'.devs == s1.devs && s'.waiting == s1.waiting
            && s'.procs[next] == s1.procs[next].(state := s1.procs[next].state.(exec := Running))
            && (forall x :: x in s1.procs && x != next && x != r ==> s'.procs[x] == s1.procs[x])
            && (forall k :: 0 < k < 4 ==> s'.queues[k] == s1.queues[k])
            && (r == NULL ==> s'.queues[0] == s1.queues[0][1..])
            && (r != NULL ==>
                  && r in s1.procs && r != next
                  && s'.procs[r] == Proc(s1.procs[r].state.(exec := Ready), e.ctxt.(eax := 0))
                  && Without(s'.queues[0], r) == s1.queues[0][1..] && InTurn(s'.procs, s'.queues[0], r))
  {
    hide Core, CheckUpTo, Idle;
    CheckUpToKeeps(s, 4);
    IdleGivesUp(CheckAll(s).0, e.ctxt.(eax := 0));
  }

  lemma IdleGivesUp(s: Sys, ctxt: Context)
    requires Core(s) && s.queues[0] != []
    ensures var o := Idle(s, ctxt); var next, r, s' := s.queues[0][0], s.running, o.sys;
            && next in s.procs && o.reply == Load(s.procs[next].ctxt) && s'.running == next
            && s'.procs.Keys == s.procs.Keys && s'.devs == s.devs && s'.waiting == s.waiting
            && s'.procs[next] == s.procs[next].(state := s.procs[next].state.(exec := Running))
            && (forall x :: x in s.procs && x != next && x != r ==> s'.procs[x] == s.procs[x])
            && (forall k :: 0 < k < 4 ==> s'.queues[k] == s.queues[k])
            && (r == NULL ==> s'.queues[0] == s.queues[0][1..])
            && (r != NULL ==>
                  && r in s.procs && r != next
                  && s'.procs[r] == Proc(s.procs[r].state.(exec := Ready), ctxt)
                  && Without(s'.queues[0], r) == s.queues[0][1..] && InTurn(s'.procs, s'.queues[0], r))
  {
    hide Idle, SwitchTo, Queued, Ownership, DevicesOk, Without, InTurn;
    IdleShape(s, ctxt);
    var s1 := s.(original := if s.original.None? then Some(ctxt) else s.original);
    SameQueues(s, s1, {});
    SwitchToShape(s1, ctxt);
    SwitchToQueues(s1, ctxt);
  }

  lemma SwitchToQueues(s: Sys, ctxt: Context)
    requires Queued(s, {}) && RunningOk(s) && s.queues[0] != []
    ensures var s', r := SwitchTo(s, ctxt), s.running;
            && (forall k :: 0 < k < 4 ==> s'.queues[k] == s.queues[k])
            && (r == NULL ==> s'.queues[0] == s.queues[0][1..])
            && (r != NULL ==>
                  && r in s'.procs
                  && Without(s'.queues[0], r) == s.queues[0][1..] && InTurn(s'.procs, s'.queues[0], r))
  {
    hide Queued, Without, InTurn, Enqueue;
    var next, r, none: set<Ptr> := s.queues[0][0], s.running, {};
    ReadyHead(s);
    HeadLeaves(s);
    if r != NULL {
      var s1 := Detach(s, next);
      var s2 := SetExec(SetContext(s1, r, ctxt), r, Ready);
      assert none + {next} == {next};
      DetachKeeps(s, none, next);
      TakeInHand(s1, {next}, r);
      UpdateKeeps(s1, s2, {next} + {r}, r);
      EnqueueEnters(s2, {next} + {r}, r);
      var s3 := Enqueue(s2, r);
      InHandApart(s2, {next} + {r}, r, 0);
      WithoutAbsent(s2.queues[0], r);
      OthersStay(s2, r);
      SameTurn(s3.procs, RunInstead(s3, next).procs, s3.queues[0], r);
    }
  }

  lemma HeadLeaves(s: Sys)
    requires s.queues[0] != [] && s.queues[0][0] in s.procs
    requires s.procs[s.queues[0][0]].state.exec == Ready && s.procs[s.queues[0][0]].state.dispatch == Active
    ensures Detach(s, s.queues[0][0]) == s.(queues := s.queues[0 := s.queues[0][1..]])
  {
    assert RemoveAt(s.queues[0], 0) == s.queues[0][1..];
  }

  lemma OthersStay(s: Sys, p: Ptr)
    requires p in s.procs && s.procs[p].state.exec == Ready && s.procs[p].state.dispatch == Active
    ensures forall k :: 0 < k < 4 ==> Enqueue(s, p).queues[k] == s.queues[k]
  {
  }

  /** Places depend on priorities only. */
  lemma SameTurn(procs: map<Ptr, Proc>, procs': map<Ptr, Proc>, q: seq<Ptr>, p: Ptr)
    requires p in procs && InTurn(procs, q, p)
    requires forall x :: x in procs ==> x in procs' && procs'[x].state.pri == procs[x].state.pri
    ensures InTurn(procs', q, p)
  {
  }

  /** A turn of the wait loop: nothing without a finished operation; with one, the head of queue 0 runs, if any. */
  lemma TurnDoes(s: Sys)
    requires Inv(s) && Enabled(s, WaitLoop)
    ensures (forall d :: 0 <= d < 4 ==> !s.devs[d].event) ==> Step(s, WaitLoop) == Outcome(s, Pending)
    ensures (exists d :: 0 <= d < 4 && s.devs[d].event) ==>
              var s1, o := CheckAll(s).0, Step(s, WaitLoop);
              if s1.queues[0] == [] then o == Outcome(s1.(fault := true), Pending)
              else NextRuns(s1, o) && o.sys.original == s.original && o.sys.devs == s1.devs
  {
    hide Core, CheckUpTo, Dispatch;
    CheckUpToKeeps(s, 4);
    var s1 := CheckAll(s).0;
    CoreParts(s1);
    hide Queued;
    if s1.queues[0] != [] {
      SameQueues(s1, s1.(waiting := false), {});
      ReadyHead(s1);
      DispatchTakesHead(s1.(waiting := false));
    }
  }

  /** An interrupt concerns its device only, and nothing at all while the port is closed. */
  lemma InterruptDoes(s: Sys, e: Event)
    requires Inv(s) && Enabled(s, e) && (e.InputIrq? || e.OutputIrq?)
    ensures var o := Step(s, e);
            && o.reply == Pending && o.sys == s.(devs := o.sys.devs)
            && (forall k :: 0 <= k < 4 && k != e.d ==> o.sys.devs[k] == s.devs[k])
            && (!s.devs[e.d].open ==> o.sys == s)
  {
    hide Devices.DevInv, Input, Output;
    DeviceOk(s, e.d);
    hide Core;
    if s.devs[e.d].open {
      if e.InputIrq? {
        InputKeeps(s.devs[e.d], e.b);
      } else {
        OutputKeeps(s.devs[e.d]);
      }
    }
  }

  /** At power-on there are no processes, nothing is saved, and the four ports are closed and idle. */
  lemma PowerOn()
    ensures INITIAL.queues == [[], [], [], []] && INITIAL.procs == map[] && INITIAL.running == NULL
    ensures INITIAL.original == None && !INITIAL.waiting && !INITIAL.fault
    ensures forall d :: 0 <= d < 4 ==>
              var dev := INITIAL.devs[d];
              && !dev.open && dev.ops == [] && !dev.event && !dev.txInt && dev.ringBegin == dev.ringEnd == 0
              && dev.sent == [] && dev.received == [] && dev.accepted == [] && dev.done == []
  {
  }
}
