/**
 The linked PCB queues in memory (kernel/pcb.c). Memory maps the address of a PCB to its fields, so
 `mem[p].next` is `p->p_next`.
 */
module PcbMemory {
  import opened Common
  import opened PcbQueues

  datatype PcbRec = PcbRec(next: Ptr, state: PcbState, ctxt: Context, name: string)

  datatype QueueRec = QueueRec(head: Ptr, tail: Ptr)

  type Memory = map<Ptr, PcbRec>

  function SetNext(mem: Memory, p: Ptr, next: Ptr): Memory
    requires p in mem
  {
    mem[p := mem[p].(next := next)]
  }

  /** The element at position `i`, NULL outside the sequence. */
  function NodeAt(s: seq<Ptr>, i: int): Ptr {
    if 0 <= i < |s| then s[i] else NULL
  }

  /** Head, tail and links spell out `s`; in particular the links are acyclic and end in NULL. */
  ghost predicate Linked(mem: Memory, q: QueueRec, s: seq<Ptr>) {
    && q == QueueRec(NodeAt(s, 0), NodeAt(s, |s| - 1))
    && Distinct(s)
    && (forall i :: 0 <= i < |s| ==> IsNode(mem, s, i))
  }

  ghost predicate IsNode(mem: Memory, s: seq<Ptr>, i: nat)
    requires i < |s|
  {
    s[i] != NULL && s[i] in mem && mem[s[i]].next == NodeAt(s, i + 1)
  }

  /** `mem'` differs from `mem` in links only, and only in links of `s` or of `p`. */
  ghost predicate Relinked(mem: Memory, mem': Memory, s: seq<Ptr>, p: Ptr) {
    && mem'.Keys == mem.Keys
    && (forall x :: x in mem ==> mem'[x] == mem[x].(next := mem'[x].next))
    && (forall x :: x in mem && x !in s && x != p ==> mem'[x] == mem[x])
  }

  function PriAt(mem: Memory, x: Ptr): nat {
    if x in mem then mem[x].state.pri else 0
  }

  function Priorities(mem: Memory, s: seq<Ptr>): (pris: seq<nat>)
    ensures |pris| == |s|
    ensures forall i :: 0 <= i < |s| ==> pris[i] == PriAt(mem, s[i])
  {
    seq(|s|, i requires 0 <= i < |s| => PriAt(mem, s[i]))
  }

  function EntryPoint(mem: Memory, s: seq<Ptr>, isPriority: bool, p: Ptr): (k: nat)
    ensures k <= |s|
  {
    if isPriority then InsertIndex(Priorities(mem, s), PriAt(mem, p)) else |s|
  }

  /** Queues that share no node with the changed links stay what they were. */
  lemma LinkedElsewhere(mem: Memory, mem': Memory, q: QueueRec, s: seq<Ptr>)
    requires Linked(mem, q, s)
    requires forall i :: 0 <= i < |s| ==> s[i] in mem && s[i] in mem' && mem'[s[i]].next == mem[s[i]].next
    ensures Linked(mem', q, s)
  {
    forall i | 0 <= i < |s| ensures IsNode(mem', s, i) {
      assert IsNode(mem, s, i);
    }
  }

  lemma LinkOnly(mem: Memory, q: QueueRec, s: seq<Ptr>, p: Ptr)
    requires Linked(mem, q, s) && s == [] && p in mem && p != NULL && mem[p].next == NULL
    ensures Linked(mem, QueueRec(p, p), InsertAt(s, 0, p))
  {
    assert IsNode(mem, [p], 0);
  }

  lemma LinkFront(mem: Memory, q: QueueRec, s: seq<Ptr>, p: Ptr)
    requires Linked(mem, q, s) && s != [] && p in mem && p != NULL && p !in s
    ensures Linked(SetNext(mem, p, q.head), q.(head := p), InsertAt(s, 0, p))
  {
    var mem', s' := SetNext(mem, p, q.head), InsertAt(s, 0, p);
    forall i | 0 <= i < |s'| ensures IsNode(mem', s', i) {
      if i > 0 {
        assert IsNode(mem, s, i - 1);
      }
    }
  }

  lemma LinkBack(mem: Memory, q: QueueRec, s: seq<Ptr>, p: Ptr)
    requires Linked(mem, q, s) && s != [] && p in mem && p != NULL && p !in s && mem[p].next == NULL
    ensures q.tail in mem
    ensures Linked(SetNext(mem, q.tail, p), q.(tail := p), InsertAt(s, |s|, p))
  {
    var last := |s| - 1;
    assert IsNode(mem, s, last);
    var mem', s' := SetNext(mem, q.tail, p), InsertAt(s, |s|, p);
    forall i | 0 <= i < |s'| ensures IsNode(mem', s', i) {
      if i < last {
        assert IsNode(mem, s, i);
      }
    }
  }

  lemma LinkMiddle(mem: Memory, q: QueueRec, s: seq<Ptr>, k: nat, p: Ptr)
    requires Linked(mem, q, s) && 0 < k < |s| && p in mem && p != NULL && p !in s
    ensures s[k - 1] in mem
    ensures Linked(SetNext(SetNext(mem, s[k - 1], p), p, s[k]), q, InsertAt(s, k, p))
  {
    assert IsNode(mem, s, k - 1) && IsNode(mem, s, k);
    var mem', s' := SetNext(SetNext(mem, s[k - 1], p), p, s[k]), InsertAt(s, k, p);
    forall i | 0 <= i < |s'| ensures IsNode(mem', s', i) {
      if i < k - 1 {
        assert IsNode(mem, s, i);
      } else if i > k {
        assert IsNode(mem, s, i - 1);
      }
    }
  }

  lemma UnlinkFront(mem: Memory, q: QueueRec, s: seq<Ptr>)
    requires Linked(mem, q, s) && s != []
    ensures q.head in mem
    ensures var next := mem[q.head].next;
            Linked(SetNext(mem, q.head, NULL), QueueRec(next, if q.head == q.tail then NULL else q.tail),
                   RemoveAt(s, 0))
  {
    assert IsNode(mem, s, 0);
    var mem', s' := SetNext(mem, q.head, NULL), RemoveAt(s, 0);
    forall i | 0 <= i < |s'| ensures IsNode(mem', s', i) {
      assert IsNode(mem, s, i + 1);
    }
  }

  lemma UnlinkAfter(mem: Memory, q: QueueRec, s: seq<Ptr>, k: nat)
    requires Linked(mem, q, s) && k + 1 < |s|
    ensures s[k] in mem && s[k + 1] in mem
    ensures Linked(SetNext(SetNext(mem, s[k], mem[s[k + 1]].next), s[k + 1], NULL),
                   if s[k + 1] == q.tail then q.(tail := s[k]) else q, RemoveAt(s, k + 1))
  {
    assert IsNode(mem, s, k) && IsNode(mem, s, k + 1);
    var mem', s' := SetNext(SetNext(mem, s[k], mem[s[k + 1]].next), s[k + 1], NULL), RemoveAt(s, k + 1);
    forall i | 0 <= i < |s'| ensures IsNode(mem', s', i) {
      if i < k {
        assert IsNode(mem, s, i);
      } else if i > k {
        assert IsNode(mem, s, i + 1);
      }
    }
  }

  /** What a walk along the links may rely on. */
  lemma HeadAndNext(mem: Memory, q: QueueRec, s: seq<Ptr>)
    requires Linked(mem, q, s)
    ensures q.head == NULL <==> s == []
    ensures s != [] ==> q.head == s[0] && q.tail == s[|s| - 1]
    ensures forall i :: 0 <= i < |s| ==> s[i] in mem && s[i] != NULL && mem[s[i]].next == NodeAt(s, i + 1)
  {
    forall i | 0 <= i < |s| ensures s[i] in mem && s[i] != NULL && mem[s[i]].next == NodeAt(s, i + 1) {
      assert IsNode(mem, s, i);
    }
  }

  /** The node at position `k`, or the end of the queue. */
  lemma NodeFacts(mem: Memory, q: QueueRec, s: seq<Ptr>, k: nat)
    requires Linked(mem, q, s) && k <= |s|
    ensures NodeAt(s, k) == NULL <==> k == |s|
    ensures k < |s| ==> s[k] in mem && mem[s[k]].next == NodeAt(s, k + 1)
    ensures q.head == NodeAt(s, 0) && q.tail == NodeAt(s, |s| - 1)
  {
    assert k < |s| ==> IsNode(mem, s, k);
  }

  /** The search loop of pcb_insert: stops at the first node of strictly lower priority, or past the tail. */
  method FindEntry(mem: Memory, q: QueueRec, p: Ptr, ghost s: seq<Ptr>)
    returns (prev: Ptr, cmp: Ptr, ghost k: nat)
    requires Linked(mem, q, s) && p in mem && s != []
    ensures k == EntryPoint(mem, s, true, p) && cmp == NodeAt(s, EntryPoint(mem, s, true, p))
    ensures EntryPoint(mem, s, true, p) > 0 ==> prev == s[EntryPoint(mem, s, true, p) - 1]
  {
    hide Linked, InsertIndex, Priorities;
    NodeFacts(mem, q, s, 0);
    ghost var pris := Priorities(mem, s);
    prev, cmp, k := NULL, q.head, 0;
    while cmp != NULL && mem[p].state.pri >= mem[cmp].state.pri
      invariant k <= |s| && cmp == NodeAt(s, k) && (k < |s| ==> cmp != NULL && cmp in mem)
      invariant k > 0 ==> prev == s[k - 1]
      invariant forall i :: 0 <= i < k ==> pris[i] <= mem[p].state.pri
      decreases |s| - k
    {
      NodeFacts(mem, q, s, k);
      NodeFacts(mem, q, s, k + 1);
      prev := cmp;
      cmp := mem[cmp].next;
      k := k + 1;
    }
    InsertIndexUnique(pris, mem[p].state.pri, k);
  }

  /** The pointer updates of pcb_insert for a queue of several nodes and the entry point found. */
  method InsertFound(mem: Memory, q: QueueRec, p: Ptr, prev: Ptr, cmp: Ptr, ghost k: nat, ghost s: seq<Ptr>)
    returns (mem': Memory, q': QueueRec)
    requires Linked(mem, q, s) && s != [] && p in mem && p != NULL && p !in s && mem[p].next == NULL
    requires k <= |s| && cmp == NodeAt(s, k) && (k > 0 ==> prev == s[k - 1])
    ensures Linked(mem', q', InsertAt(s, k, p)) && Relinked(mem, mem', s, p)
  {
    HeadAndNext(mem, q, s);
    mem', q' := mem, q;
    if cmp == NULL {
      LinkBack(mem, q, s, p);
      mem' := SetNext(mem, q.tail, p);
      q' := q.(tail := p);
    } else if cmp == q.head {
      LinkFront(mem, q, s, p);
      mem' := SetNext(mem, p, q.head);
      q' := q.(head := p);
    } else {
      LinkMiddle(mem, q, s, k, p);
      mem' := SetNext(mem, prev, p);
      mem' := SetNext(mem', p, cmp);
    }
  }

  /** pcb_insert, on the queue that the state of `p` selects: stable insertion by priority, or append. */
  method Insert(mem: Memory, q: QueueRec, isPriority: bool, p: Ptr, ghost s: seq<Ptr>)
    returns (mem': Memory, q': QueueRec)
    requires Linked(mem, q, s) && p in mem && p != NULL && p !in s && mem[p].next == NULL
    ensures Linked(mem', q', InsertAt(s, EntryPoint(mem, s, isPriority, p), p))
    ensures Relinked(mem, mem', s, p)
  {
    HeadAndNext(mem, q, s);
    mem', q' := mem, q;
    if q.head != NULL {
      if mem[q.head].next == NULL {
        SingleEntry(mem, s, p);
        if isPriority && mem[p].state.pri < mem[q.head].state.pri {
          LinkFront(mem, q, s, p);
          mem' := SetNext(mem, p, q.head);
          q' := q.(head := p);
        } else {
          LinkBack(mem, q, s, p);
          mem' := SetNext(mem, q.head, p);
          q' := q.(tail := p);
        }
      } else {
        hide Linked, Relinked;
        if isPriority {
          var prev, cmp, k := FindEntry(mem, q, p, s);
          mem', q' := InsertFound(mem, q, p, prev, cmp, k, s);
        } else {
          mem', q' := InsertFound(mem, q, p, q.tail, NULL, |s|, s);
        }
      }
    } else {
      LinkOnly(mem, q, s, p);
      q' := q'.(head := p);
      q' := q'.(tail := p);
    }
  }

  lemma SingleEntry(mem: Memory, s: seq<Ptr>, p: Ptr)
    requires s != [] && s[0] in mem && p in mem && NodeAt(s, 1) == NULL && forall i :: 0 <= i < |s| ==> s[i] != NULL
    ensures |s| == 1
    ensures EntryPoint(mem, s, true, p) == if mem[p].state.pri < mem[s[0]].state.pri then 0 else 1
  {
    InsertIndexUnique(Priorities(mem, s), mem[p].state.pri, if mem[p].state.pri < mem[s[0]].state.pri then 0 else 1);
  }

  /** pcb_remove, on the queue that the state of `p` selects: deletes exactly `p`, or changes nothing. */
  method Remove(mem: Memory, q: QueueRec, p: Ptr, ghost s: seq<Ptr>)
    returns (rc: int, mem': Memory, q': QueueRec)
    requires Linked(mem, q, s) && p != NULL
    ensures rc == if p in s then 0 else -1
    ensures rc == 0 ==> Linked(mem', q', RemoveAt(s, IndexOf(s, p))) && p in mem' && mem'[p].next == NULL
    ensures rc == 0 ==> Relinked(mem, mem', s, p)
    ensures rc != 0 ==> mem' == mem && q' == q
  {
    hide Linked, IndexOf, RemoveAt;
    NodeFacts(mem, q, s, 0);
    mem', q' := mem, q;
    if q.head == NULL {
      return -1, mem', q';
    }
    if q.head == p {
      UnlinkFront(mem, q, s);
      FirstAt(s, p, 0);
      if q.head == q.tail {
        q' := q'.(tail := NULL);
      }
      q' := q'.(head := mem[q.head].next);
      mem' := SetNext(mem, p, NULL);
      return 0, mem', q';
    }
    NodeFacts(mem, q, s, 1);
    if mem[q.head].next == NULL {
      return -1, mem', q';
    }
    var iter := q.head;
    ghost var k := 0;
    while mem[iter].next != NULL
      invariant 0 <= k < |s| && iter == s[k] && iter in mem && mem[iter].next == NodeAt(s, k + 1)
      invariant forall i :: 0 <= i <= k ==> s[i] != p
      decreases |s| - k
    {
      NodeFacts(mem, q, s, k + 1);
      if mem[iter].next == p {
        UnlinkAfter(mem, q, s, k);
        FirstAt(s, p, k + 1);
        if p == q.tail {
          q' := q'.(tail := iter);
        }
        mem' := SetNext(mem, iter, mem[p].next);
        mem' := SetNext(mem', p, NULL);
        return 0, mem', q';
      }
      iter := mem[iter].next;
      k := k + 1;
    }
    NodeFacts(mem, q, s, k + 1);
    return -1, mem', q';
  }

  lemma FirstAt(s: seq<Ptr>, p: Ptr, k: nat)
    requires k < |s| && s[k] == p && forall i :: 0 <= i < k ==> s[i] != p
    ensures IndexOf(s, p) == k
  {
  }
}
