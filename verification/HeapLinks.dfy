/**
 The doubly linked block lists of kernel/memory.c. Memory maps the address of a header to its fields;
 address 0 is NULL.
 */
module HeapLinks {
  import opened Common
  import opened HeapTiles

  datatype Mcb = Mcb(prev: nat, next: nat, size: nat)

  type Memory = map<nat, Mcb>

  const NULL: nat := 0

  /** The element at position `i`, NULL outside the list. */
  function At(s: seq<nat>, i: int): nat {
    if 0 <= i < |s| then s[i] else NULL
  }

  ghost predicate Node(mem: Memory, s: seq<nat>, i: nat)
    requires i < |s|
  {
    && s[i] != NULL && s[i] in mem
    && mem[s[i]].next == At(s, i + 1)
    && mem[s[i]].prev == At(s, i - 1)
  }

  /** The links in both directions spell out `s`. */
  ghost predicate Dll(mem: Memory, head: nat, s: seq<nat>) {
    && head == At(s, 0)
    && Distinct(s)
    && forall i :: 0 <= i < |s| ==> Node(mem, s, i)
  }

  /** What a walk along the list may rely on. */
  lemma Walk(mem: Memory, head: nat, s: seq<nat>)
    requires Dll(mem, head, s)
    ensures head == NULL <==> s == []
    ensures forall i :: 0 <= i < |s| ==>
              s[i] != NULL && s[i] in mem && mem[s[i]].next == At(s, i + 1) && mem[s[i]].prev == At(s, i - 1)
  {
    forall i | 0 <= i < |s| ensures s[i] != NULL && s[i] in mem &&
                                    mem[s[i]].next == At(s, i + 1) && mem[s[i]].prev == At(s, i - 1) {
      assert Node(mem, s, i);
    }
  }

  /** The forward links alone spell out `s`. */
  ghost predicate Chain(mem: Memory, head: nat, s: seq<nat>) {
    && head == At(s, 0)
    && forall i :: 0 <= i < |s| ==> Leads(mem, s, i)
  }

  ghost predicate Leads(mem: Memory, s: seq<nat>, i: nat)
    requires i < |s|
  {
    s[i] != NULL && s[i] in mem && mem[s[i]].next == At(s, i + 1)
  }

  lemma Forward(mem: Memory, head: nat, s: seq<nat>)
    requires Dll(mem, head, s)
    ensures Chain(mem, head, s)
  {
    forall i | 0 <= i < |s| ensures Leads(mem, s, i) {
      assert Node(mem, s, i);
    }
  }

  /** What a walk forward along the list may rely on. */
  lemma WalkForward(mem: Memory, head: nat, s: seq<nat>)
    requires Chain(mem, head, s)
    ensures head == NULL <==> s == []
    ensures forall i :: 0 <= i < |s| ==> s[i] != NULL && s[i] in mem && mem[s[i]].next == At(s, i + 1)
  {
    forall i | 0 <= i < |s| ensures s[i] != NULL && s[i] in mem && mem[s[i]].next == At(s, i + 1) {
      assert Leads(mem, s, i);
    }
  }

  /** A forward walk is decided by the forward links of its nodes. */
  lemma SameNexts(mem: Memory, mem': Memory, head: nat, s: seq<nat>)
    requires Chain(mem, head, s)
    requires forall x :: x in s && x in mem ==> x in mem' && mem'[x].next == mem[x].next
    ensures Chain(mem', head, s)
  {
    forall i | 0 <= i < |s| ensures Leads(mem', s, i) {
      assert Leads(mem, s, i) && s[i] in s;
    }
  }

  /** Whether memory spells out a list is decided by the links of its nodes. */
  lemma Elsewhere(mem: Memory, mem': Memory, head: nat, s: seq<nat>)
    requires forall x :: x in s ==> x in mem' && x in mem && mem'[x].next == mem[x].next && mem'[x].prev == mem[x].prev
    ensures Dll(mem', head, s) == Dll(mem, head, s)
  {
    assert forall i :: 0 <= i < |s| ==> s[i] in s && Node(mem', s, i) == Node(mem, s, i);
  }

  lemma Members(mem: Memory, head: nat, s: seq<nat>)
    requires Dll(mem, head, s)
    ensures forall x :: x in s ==> x != NULL && x in mem
  {
    forall x | x in s ensures x != NULL && x in mem {
      var i :| 0 <= i < |s| && s[i] == x;
      assert Node(mem, s, i);
    }
  }

  function SetNext(mem: Memory, x: nat, next: nat): Memory
    requires x in mem
  {
    mem[x := mem[x].(next := next)]
  }

  function SetPrev(mem: Memory, x: nat, prev: nat): Memory
    requires x in mem
  {
    mem[x := mem[x].(prev := prev)]
  }

  function SetSize(mem: Memory, x: nat, size: nat): Memory
    requires x in mem
  {
    mem[x := mem[x].(size := size)]
  }

  /** `mem'` differs from `mem` only at nodes of `s` and at `a`; outside `a`, sizes are the same. */
  ghost predicate Touches(mem: Memory, mem': Memory, s: seq<nat>, a: nat) {
    && mem.Keys <= mem'.Keys
    && (forall x :: x in mem && x !in s && x != a ==> mem'[x] == mem[x])
    && (forall x :: x in mem && x != a ==> mem'[x].size == mem[x].size)
  }

  // ---------------------------------------------------------------- walks

  /** The first-fit walk: the first list node with room for `n` bytes, or NULL. */
  method FindFit(mem: Memory, head: nat, n: nat, ghost s: seq<nat>) returns (select: nat, replace: bool, ghost k: nat)
    requires Dll(mem, head, s)
    ensures k <= |s| && select == At(s, k)
    ensures forall i :: 0 <= i < k ==> s[i] in mem && mem[s[i]].size < n
    ensures select != NULL ==> select in mem && n <= mem[select].size && replace == (mem[select].size <= n + HEADER)
  {
    Walk(mem, head, s);
    hide Dll;
    select, replace, k := head, false, 0;
    while select != NULL
      invariant k <= |s| && select == At(s, k)
      invariant forall i :: 0 <= i < k ==> mem[s[i]].size < n
      decreases |s| - k
    {
      replace := mem[select].size <= n + HEADER && mem[select].size >= n;
      if mem[select].size >= n + HEADER || replace {
        return;
      }
      select := mem[select].next;
      k := k + 1;
    }
  }

  /** The walk to the list neighbours of the block at `a`: the last node not above it, and the first above it. */
  method FindNeighbours(mem: Memory, head: nat, a: nat, ghost s: seq<nat>)
    returns (below: nat, above: nat, ghost m: nat)
    requires Chain(mem, head, s)
    ensures m <= |s| && below == At(s, m - 1) && above == At(s, m)
    ensures forall i :: 0 <= i < m ==> s[i] <= a
    ensures m < |s| ==> a < s[m]
    ensures below == NULL || (below in s && below <= a)
    ensures above == NULL || (above in s && a < above)
  {
    WalkForward(mem, head, s);
    hide Chain;
    below, above, m := NULL, head, 0;
    while above != NULL
      invariant m <= |s| && below == At(s, m - 1) && above == At(s, m)
      invariant forall i :: 0 <= i < m ==> s[i] <= a
      decreases |s| - m
    {
      if above > a {
        return;
      }
      below := above;
      above := mem[above].next;
      m := m + 1;
    }
  }

  /** The search of free_memory for the header in the allocated list. */
  method FindNode(mem: Memory, head: nat, target: int, ghost s: seq<nat>) returns (found: nat, ghost k: nat)
    requires Chain(mem, head, s)
    ensures k <= |s| && found == At(s, k) && (found != NULL ==> found == target)
    ensures found == NULL ==> forall i :: 0 <= i < |s| ==> s[i] != target
  {
    WalkForward(mem, head, s);
    hide Chain;
    found, k := head, 0;
    while found != NULL
      invariant k <= |s| && found == At(s, k)
      invariant forall i :: 0 <= i < k ==> s[i] != target
      decreases |s| - k
    {
      if found == target {
        return;
      }
      found := mem[found].next;
      k := k + 1;
    }
  }

  // ---------------------------------------------------------------- taking a free block

  /** How the nodes of a list other than the one at position `k` must change when `x` takes its place. */
  ghost predicate Relinks(mem: Memory, mem': Memory, s: seq<nat>, gone: nat, below: nat, above: nat,
                          next: nat, prev: nat) {
    forall x :: x in s && x in mem && x != gone && x != NULL ==>
      && x in mem'
      && mem'[x].next == (if x == below then next else mem[x].next)
      && mem'[x].prev == (if x == above then prev else mem[x].prev)
  }

  /** What the links at position `k` look like. */
  lemma Neighbours(mem: Memory, head: nat, s: seq<nat>, k: nat)
    requires Dll(mem, head, s) && k < |s|
    ensures s[k] != NULL && s[k] in mem && mem[s[k]].next == At(s, k + 1) && mem[s[k]].prev == At(s, k - 1)
    ensures s[k] == head <==> k == 0
    ensures At(s, k + 1) != s[k] && At(s, k - 1) != s[k] && s[k] in s
    ensures At(s, k + 1) == NULL || (At(s, k + 1) != At(s, k - 1) && At(s, k + 1) in mem && At(s, k + 1) in s)
    ensures At(s, k - 1) == NULL || (At(s, k - 1) in mem && At(s, k - 1) in s)
    ensures At(s, k + 1) == NULL <==> k + 1 == |s|
    ensures At(s, k - 1) == NULL <==> k == 0
  {
    assert Node(mem, s, k);
    if k > 0 {
      assert Node(mem, s, k - 1);
    }
    if k + 1 < |s| {
      assert Node(mem, s, k + 1);
    }
  }

  /** Another node takes the place of the one at position `k`. */
  lemma MoveNode(mem: Memory, mem': Memory, head: nat, s: seq<nat>, k: nat, b: nat)
    requires Dll(mem, head, s) && k < |s| && b != NULL && b !in s && b in mem'
    requires mem'[b].next == At(s, k + 1) && mem'[b].prev == At(s, k - 1)
    requires Relinks(mem, mem', s, s[k], At(s, k - 1), At(s, k + 1), b, b)
    ensures Dll(mem', if k == 0 then b else head, s[k := b])
  {
    var s' := s[k := b];
    forall i | 0 <= i < |s'| ensures Node(mem', s', i) {
      assert Node(mem, s, i);
    }
  }

  /** The split branch: lines 97-120. */
  method SplitFree(mem: Memory, freeHead: nat, select: nat, full: nat, ghost s: seq<nat>, ghost k: nat)
    returns (mem': Memory, freeHead': nat)
    requires Dll(mem, freeHead, s) && k < |s| && select == s[k] && select in mem && full < mem[select].size
    requires select + full !in s && HEADER <= full
    ensures Dll(mem', freeHead', s[k := select + full])
    ensures select + full in mem' && mem'[select + full].size == mem[select].size - full
    ensures Touches(mem, mem', s, select + full) && mem'[select] == mem[select]
  {
    hide Dll;
    Neighbours(mem, freeHead, s, k);
    mem', freeHead' := mem, freeHead;
    var rest := select + full;
    mem' := mem'[rest := mem[select]];
    if mem'[rest].prev != NULL {
      mem' := SetNext(mem', mem'[rest].prev, rest);
    }
    if mem'[rest].next != NULL {
      mem' := SetPrev(mem', mem'[rest].next, rest);
    }
    mem' := SetSize(mem', rest, mem'[rest].size - full);
    if select == freeHead {
      freeHead' := rest;
    }
    MoveNode(mem, mem', freeHead, s, k, rest);
  }

  /** The neighbours of the node at position `k` are linked to each other. */
  lemma DropNode(mem: Memory, mem': Memory, head: nat, s: seq<nat>, k: nat)
    requires Dll(mem, head, s) && k < |s|
    requires Relinks(mem, mem', s, s[k], At(s, k - 1), At(s, k + 1), At(s, k + 1), At(s, k - 1))
    ensures Dll(mem', if k == 0 then At(s, 1) else head, RemoveAt(s, k))
  {
    var s' := RemoveAt(s, k);
    forall i | 0 <= i < |s'| ensures Node(mem', s', i) {
      assert Node(mem, s, if i < k then i else i + 1);
    }
  }

  /**
   The replacement branch: lines 121-128. As written it only moves `free_head`. The repair unlinks the
   block from both neighbours.
   */
  method ReplaceFree(mem: Memory, freeHead: nat, select: nat, repaired: bool, ghost s: seq<nat>, ghost k: nat)
    returns (mem': Memory, freeHead': nat)
    requires Dll(mem, freeHead, s) && k < |s| && select == s[k] && select in mem
    ensures Dll(mem', freeHead', RemoveAt(s, k)) == (repaired || |s| == 1)
    ensures Touches(mem, mem', s, select) && mem'[select] == mem[select]
    ensures !repaired ==> mem' == mem && freeHead' == if k == 0 then At(s, 1) else freeHead
  {
    hide Dll;
    Neighbours(mem, freeHead, s, k);
    mem', freeHead' := mem, freeHead;
    if repaired {
      var prev, next := mem[select].prev, mem[select].next;
      if prev != NULL {
        mem' := SetNext(mem', prev, next);
      }
      if next != NULL {
        mem' := SetPrev(mem', next, prev);
      }
    }
    if select == freeHead {
      freeHead' := mem[freeHead].next;
    }
    if repaired || |s| == 1 {
      DropNode(mem, mem', freeHead, s, k);
    } else {
      StaleNode(mem, freeHead, freeHead', s, k);
    }
  }

  /** A node that nobody unlinked is still linked to. */
  lemma StaleNode(mem: Memory, head: nat, head': nat, s: seq<nat>, k: nat)
    requires Dll(mem, head, s) && k < |s| && |s| > 1
    ensures !Dll(mem, head', RemoveAt(s, k))
  {
    var i := if k == 0 then 1 else k - 1;
    assert Node(mem, s, i) && Node(mem, s, k);
    assert !Node(mem, RemoveAt(s, k), if k == 0 then 0 else k - 1);
  }

  // ---------------------------------------------------------------- the allocated list

  /** A node is linked in between two neighbours. */
  lemma AddNode(mem: Memory, mem': Memory, head: nat, t: seq<nat>, m: nat, a: nat)
    requires Dll(mem, head, t) && m <= |t| && a != NULL && a !in t && a in mem'
    requires mem'[a].next == At(t, m) && mem'[a].prev == At(t, m - 1)
    requires Relinks(mem, mem', t, a, At(t, m - 1), At(t, m), a, a)
    ensures Dll(mem', if m == 0 then a else head, InsertAt(t, m, a))
  {
    var t' := InsertAt(t, m, a);
    forall i | 0 <= i < |t'| ensures Node(mem', t', i) {
      if i != m {
        assert Node(mem, t, if i < m then i else i - 1);
      }
    }
  }

  /** The neighbours of a place in the list are different nodes. */
  lemma Ends(mem: Memory, head: nat, t: seq<nat>, m: nat)
    requires Dll(mem, head, t) && m <= |t|
    ensures head == At(t, 0) && (head == NULL <==> t == [])
    ensures At(t, m - 1) == NULL || At(t, m - 1) != At(t, m)
    ensures At(t, m - 1) == NULL <==> m == 0
    ensures At(t, m) == NULL <==> m == |t|
    ensures At(t, m) != NULL ==> At(t, m) in mem && At(t, m) in t
    ensures At(t, m - 1) != NULL ==> At(t, m - 1) in mem && At(t, m - 1) in t
  {
    assert t != [] ==> Node(mem, t, 0);
    if m > 0 {
      assert Node(mem, t, m - 1);
    }
    if m < |t| {
      assert Node(mem, t, m);
    }
  }

  lemma WrongHead(mem: Memory, head: nat, s: seq<nat>)
    requires head != At(s, 0)
    ensures !Dll(mem, head, s)
  {
  }

  /**
   Lines 130-154. As written, a block below every allocated block is linked to them but `alloc_head`
   does not move; the repair moves it.
   */
  method PutBetween(mem: Memory, allocHead: nat, a: nat, size: nat, below: nat, above: nat, repaired: bool)
    returns (mem': Memory, allocHead': nat)
    requires a in mem && a != below && a != above && (below == NULL || (below in mem && below != above))
    requires (above == NULL || above in mem) && (allocHead == NULL ==> below == NULL && above == NULL)
    ensures mem'.Keys == mem.Keys && mem'[a] == Mcb(below, above, size)
    ensures forall x :: x in mem && x != a && x != NULL ==>
              mem'[x] == Mcb(if x == above then a else mem[x].prev, if x == below then a else mem[x].next, mem[x].size)
    ensures NULL in mem && a != NULL ==> mem'[NULL] == mem[NULL]
    ensures allocHead' == if allocHead == NULL || (repaired && below == NULL) then a else allocHead
  {
    mem', allocHead' := SetSize(mem, a, size), allocHead;
    if allocHead != NULL {
      mem' := SetNext(mem', a, above);
      mem' := SetPrev(mem', a, below);
      if below != NULL {
        mem' := SetNext(mem', below, a);
      } else if repaired {
        allocHead' := a;
      }
      if above != NULL {
        mem' := SetPrev(mem', above, a);
      }
    } else {
      allocHead' := a;
      mem' := SetNext(mem', a, NULL);
      mem' := SetPrev(mem', a, NULL);
    }
  }

  /** What they do to the allocated list. */
  method InsertAllocated(mem: Memory, allocHead: nat, a: nat, size: nat, below: nat, above: nat, repaired: bool,
                         ghost t: seq<nat>, ghost m: nat)
    returns (mem': Memory, allocHead': nat)
    requires Dll(mem, allocHead, t) && a != NULL && a in mem && a !in t
    requires m <= |t| && below == At(t, m - 1) && above == At(t, m)
    ensures repaired || t == [] || m > 0 <==> Dll(mem', allocHead', InsertAt(t, m, a))
    ensures Touches(mem, mem', t, a) && mem'[a].size == size
    ensures !repaired && t != [] && m == 0 ==>
              Chain(mem', allocHead', t) && t[0] in mem' && mem'[t[0]].prev == a
  {
    hide Dll, Chain;
    Ends(mem, allocHead, t, m);
    mem', allocHead' := PutBetween(mem, allocHead, a, size, below, above, repaired);
    Members(mem, allocHead, t);
    AddNode(mem, mem', allocHead, t, m, a);
    if !repaired && t != [] && m == 0 {
      WrongHead(mem', allocHead', InsertAt(t, m, a));
      Forward(mem, allocHead, t);
      SameNexts(mem, mem', allocHead, t);
    }
  }

  /** Lines 189-204. */
  method RemoveAllocated(mem: Memory, allocHead: nat, a: nat, ghost t: seq<nat>, ghost m: nat)
    returns (mem': Memory, allocHead': nat)
    requires Dll(mem, allocHead, t) && m < |t| && a == t[m] && a in mem
    ensures Dll(mem', allocHead', RemoveAt(t, m))
    ensures Touches(mem, mem', t, a) && mem'[a] == mem[a]
    ensures mem'.Keys == mem.Keys
    ensures forall x :: x in mem && x != At(t, m - 1) ==> mem'[x].next == mem[x].next
  {
    hide Dll;
    Neighbours(mem, allocHead, t, m);
    mem', allocHead' := mem, allocHead;
    if a == allocHead {
      allocHead' := mem[a].next;
    } else {
      mem' := SetNext(mem', mem[a].prev, mem[a].next);
    }
    if mem[a].next != NULL {
      mem' := SetPrev(mem', mem[a].next, mem[a].prev);
    }
    DropNode(mem, mem', allocHead, t, m);
  }

  // ---------------------------------------------------------------- giving a block back

  /** The free list after the block at `a` returned to position `m`. */
  function Joined(s: seq<nat>, m: nat, a: nat, lower: bool, upper: bool): seq<nat>
    requires m <= |s| && (lower ==> m > 0) && (upper ==> m < |s|)
  {
    if lower then if upper then RemoveAt(s, m) else s
    else if upper then s[m := a]
    else InsertAt(s, m, a)
  }

  /** The block at `x` ends where the block at `y` starts. */
  predicate Meets(mem: Memory, x: nat, y: nat)
    requires x in mem
  {
    x + HEADER + mem[x].size == y
  }

  ghost predicate MeetsBelow(mem: Memory, s: seq<nat>, m: nat, a: nat) {
    0 < m <= |s| && s[m - 1] in mem && Meets(mem, s[m - 1], a)
  }

  ghost predicate MeetsAbove(mem: Memory, s: seq<nat>, m: nat, a: nat) {
    m < |s| && s[m] in mem && a in mem && Meets(mem, a, s[m])
  }

  /** Payload of the block at `a` together with the free block above it. */
  ghost function Above(mem: Memory, s: seq<nat>, m: nat, a: nat): nat
    requires a in mem
  {
    mem[a].size + if MeetsAbove(mem, s, m, a) then mem[s[m]].size + HEADER else 0
  }

  /** Only the links of list nodes and of `a` change, and only the size of `grown`. */
  ghost predicate Regrows(mem: Memory, mem': Memory, s: seq<nat>, a: nat, grown: nat) {
    && mem.Keys == mem'.Keys
    && (forall x :: x in mem && x !in s && x != a ==> mem'[x] == mem[x])
    && (forall x :: x in mem && x != grown ==> mem'[x].size == mem[x].size)
  }

  /** The block at `to` absorbs the free block at `above`, the next one in the list. */
  method Absorb(mem: Memory, to: nat, above: nat) returns (mem': Memory)
    requires to in mem && above in mem && to != above && mem[above].next != to
    requires mem[above].next != NULL ==> mem[above].next in mem
    ensures mem'.Keys == mem.Keys
    ensures mem'[to] == Mcb(mem[to].prev, mem[above].next, mem[to].size + mem[above].size + HEADER)
    ensures forall x :: x in mem && x != to ==>
              mem'[x] == if x == mem[above].next && x != NULL then mem[x].(prev := to) else mem[x]
  {
    mem' := SetSize(mem, to, mem[to].size + mem[above].size + HEADER);
    mem' := SetNext(mem', to, mem[above].next);
    if mem[above].next != NULL {
      mem' := SetPrev(mem', mem[above].next, to);
    }
  }

  /** The freed block at `a` absorbs the free block at `above`, or is linked in front of it. */
  method JoinAbove(mem: Memory, a: nat, above: nat) returns (mem': Memory)
    requires a in mem && above in mem && above != NULL && a != above && mem[above].next != a
    requires mem[above].next != NULL ==> mem[above].next in mem
    ensures mem'.Keys == mem.Keys
    ensures mem'[a] == if Meets(mem, a, above)
                       then Mcb(mem[a].prev, mem[above].next, mem[a].size + mem[above].size + HEADER)
                       else mem[a].(next := above)
    ensures forall x :: x in mem && x != a ==>
              mem'[x] == if x == mem'[a].next && x != NULL then mem[x].(prev := a) else mem[x]
  {
    if Meets(mem, a, above) {
      mem' := Absorb(mem, a, above);
    } else {
      mem' := SetNext(mem, a, above);
      mem' := SetPrev(mem', above, a);
    }
  }

  /** Lines 238-260: the free block below swallows the freed one, and the next free block when they now touch. */
  method MergeBelow(mem: Memory, freeHead: nat, a: nat, below: nat, above: nat, ghost s: seq<nat>, ghost m: nat)
    returns (mem': Memory)
    requires Dll(mem, freeHead, s) && a in mem && a !in s
    requires 0 < m <= |s| && below == At(s, m - 1) && above == At(s, m) && MeetsBelow(mem, s, m, a)
    ensures Dll(mem', freeHead, Joined(s, m, a, true, MeetsAbove(mem, s, m, a)))
    ensures Regrows(mem, mem', s, a, below) && mem'.Keys == mem.Keys
    ensures mem'[below].size == mem[below].size + Above(mem, s, m, a) + HEADER
  {
    hide Dll;
    Members(mem, freeHead, s);
    Neighbours(mem, freeHead, s, m - 1);
    if m < |s| {
      Neighbours(mem, freeHead, s, m);
    }
    mem' := SetSize(mem, below, mem[below].size + mem[a].size + HEADER);
    if above != NULL {
      if Meets(mem', a, above) {
        mem' := Absorb(mem', below, above);
        DropNode(mem, mem', freeHead, s, m);
      } else {
        Elsewhere(mem, mem', freeHead, s);
      }
    } else {
      mem' := SetNext(mem', below, NULL);
      Elsewhere(mem, mem', freeHead, s);
    }
  }

  /** The links that put the freed block at position `m`, in place of the absorbed block or beside it. */
  lemma JoinLinks(mem: Memory, mem': Memory, head: nat, s: seq<nat>, m: nat, a: nat, upper: bool)
    requires Dll(mem, head, s) && m <= |s| && (upper ==> m < |s|) && a != NULL && a !in s && a in mem'
    requires mem'[a].prev == At(s, m - 1) && mem'[a].next == if upper then At(s, m + 1) else At(s, m)
    requires Relinks(mem, mem', s, if upper then s[m] else a, At(s, m - 1), mem'[a].next, a, a)
    ensures Dll(mem', if m == 0 then a else head, Joined(s, m, a, false, upper))
  {
    if upper {
      MoveNode(mem, mem', head, s, m, a);
    } else {
      AddNode(mem, mem', head, s, m, a);
    }
  }

  /** Without the link from the block below, the freed block is lost. */
  lemma JoinOrLose(mem: Memory, mem': Memory, head: nat, s: seq<nat>, m: nat, a: nat, upper: bool, linked: bool)
    requires Dll(mem, head, s) && 0 < m <= |s| && (upper ==> m < |s|) && a != NULL && a !in s && a in mem'
    requires linked ==> mem'[a].prev == At(s, m - 1) && mem'[a].next == if upper then At(s, m + 1) else At(s, m)
    requires linked ==> Relinks(mem, mem', s, if upper then s[m] else a, At(s, m - 1), mem'[a].next, a, a)
    requires !linked ==> s[m - 1] in mem' && mem'[s[m - 1]].next != a
    ensures Dll(mem', head, Joined(s, m, a, false, upper)) == linked
  {
    if linked {
      JoinLinks(mem, mem', head, s, m, a, upper);
    } else {
      assert !Node(mem', Joined(s, m, a, false, upper), m - 1);
    }
  }

  /** Lines 263-279, with the two missing assignments as repairs. */
  method Relink(mem: Memory, a: nat, below: nat, above: nat, repaired: bool) returns (mem': Memory)
    requires a in mem && below in mem && a != above && below != above && (repaired ==> a != below)
    requires above != NULL ==> above in mem && mem[above].next != a && mem[above].next != below
    requires above != NULL && mem[above].next != NULL ==> mem[above].next in mem
    ensures mem'.Keys == mem.Keys
    ensures a != below ==> mem'[below] == if repaired then mem[below].(next := a) else mem[below]
    ensures above == NULL ==> mem'[a] == Mcb(below, if repaired then NULL else mem[a].next, mem[a].size)
    ensures above != NULL ==>
              mem'[a] == if Meets(mem, a, above)
                         then Mcb(below, mem[above].next, mem[a].size + mem[above].size + HEADER)
                         else Mcb(below, above, mem[a].size)
    ensures forall x :: x in mem && x != a && x != below ==>
              mem'[x] == if above != NULL && x == mem'[a].next && x != NULL then mem[x].(prev := a) else mem[x]
  {
    mem' := SetPrev(mem, a, below);
    if repaired {
      mem' := SetNext(mem', below, a);
    }
    if above != NULL {
      mem' := JoinAbove(mem', a, above);
    } else if repaired {
      mem' := SetNext(mem', a, NULL);
    }
  }

  /** The walk for `a` went along the free list `s` and stopped in front of position `m`. */
  ghost predicate Stopped(mem: Memory, freeHead: nat, a: nat, below: nat, above: nat, s: seq<nat>, m: nat) {
    && Dll(mem, freeHead, s) && a != NULL && a in mem && a !in s
    && m <= |s| && below == At(s, m - 1) && above == At(s, m)
  }

  /**
   The walk came past `a` itself, which a broken free list still leads to, or to a node above it whose back
   link may be stale and which `a` does not touch.
   */
  ghost predicate Strayed(mem: Memory, freeHead: nat, a: nat, below: nat, above: nat, repaired: bool) {
    && freeHead != NULL && a != NULL && a in mem && a != above
    && (above != NULL ==> above in mem && mem[above].next != a && (mem[above].next != NULL ==> mem[above].next in mem))
    && ((below == a && !repaired) || (below == NULL && above != NULL && !Meets(mem, a, above)))
  }

  /**
   Lines 261-287: a free block lies below but does not touch. As written its `p_next` is not updated, and
   neither is that of the freed block when no free block lies above. The free list keeps its head: the
   test at line 282 asks whether the block above is the head, and the block below comes before it.
   When the block below is the freed one itself, it becomes its own predecessor.
   */
  method LinkFreed(mem: Memory, freeHead: nat, a: nat, below: nat, above: nat, repaired: bool,
                   ghost s: seq<nat>, ghost m: nat)
    returns (mem': Memory)
    requires Stopped(mem, freeHead, a, below, above, s, m) || Strayed(mem, freeHead, a, below, above, repaired)
    requires below != NULL && below in mem && !Meets(mem, below, a)
    ensures Stopped(mem, freeHead, a, below, above, s, m) ==>
              && Dll(mem', freeHead, Joined(s, m, a, false, MeetsAbove(mem, s, m, a))) == repaired
              && Regrows(mem, mem', s, a, a) && mem'[a].size == Above(mem, s, m, a)
    ensures mem'.Keys == mem.Keys && (below == a ==> mem'[a].prev == a)
  {
    hide Dll, Joined, Distinct;
    if Stopped(mem, freeHead, a, below, above, s, m) {
      Neighbours(mem, freeHead, s, m - 1);
      if m < |s| {
        Neighbours(mem, freeHead, s, m);
      }
    }
    mem' := Relink(mem, a, below, above, repaired);
    if Stopped(mem, freeHead, a, below, above, s, m) {
      JoinOrLose(mem, mem', freeHead, s, m, a, MeetsAbove(mem, s, m, a), repaired);
    }
  }

  /** Lines 291-307 */
  method PutFirst(mem: Memory, a: nat, above: nat) returns (mem': Memory)
    requires a in mem && above in mem && above != NULL && a != above && mem[above].next != a
    requires mem[above].next != NULL ==> mem[above].next in mem
    ensures mem'.Keys == mem.Keys && mem'[a].prev == NULL
    ensures if Meets(mem, a, above)
            then mem'[a].next == mem[above].next && mem'[a].size == mem[a].size + mem[above].size + HEADER
            else mem'[a].next == above && mem'[a].size == mem[a].size
    ensures forall x :: x in mem && x != a ==>
              mem'[x] == if x == mem'[a].next && x != NULL then mem[x].(prev := a) else mem[x]
  {
    mem' := SetPrev(mem, a, NULL);
    mem' := JoinAbove(mem', a, above);
  }

  /** Lines 289-310: the freed block becomes the first of the free list. */
  method LinkFirst(mem: Memory, freeHead: nat, a: nat, above: nat, repaired: bool, ghost s: seq<nat>)
    returns (mem': Memory, freeHead': nat)
    requires Stopped(mem, freeHead, a, NULL, above, s, 0) || Strayed(mem, freeHead, a, NULL, above, repaired)
    requires above != NULL
    ensures Stopped(mem, freeHead, a, NULL, above, s, 0) ==>
              && Dll(mem', freeHead', Joined(s, 0, a, false, MeetsAbove(mem, s, 0, a)))
              && Regrows(mem, mem', s, a, a) && mem'[a].size == Above(mem, s, 0, a)
    ensures mem'.Keys == mem.Keys
    ensures Strayed(mem, freeHead, a, NULL, above, repaired) ==> FirstAgain(mem, mem', freeHead', a, above)
  {
    hide Dll, Joined, Distinct;
    if Stopped(mem, freeHead, a, NULL, above, s, 0) {
      Neighbours(mem, freeHead, s, 0);
    }
    mem' := PutFirst(mem, a, above);
    if Stopped(mem, freeHead, a, NULL, above, s, 0) {
      JoinLinks(mem, mem', freeHead, s, 0, a, MeetsAbove(mem, s, 0, a));
    }
    freeHead' := a;
  }

  /** `a` is in front of `above`, and nothing else changed. */
  ghost predicate FirstAgain(mem: Memory, mem': Memory, freeHead': nat, a: nat, above: nat)
    requires a in mem && above in mem
  {
    && freeHead' == a && mem' == mem[a := Mcb(NULL, above, mem[a].size)][above := mem[above].(prev := a)]
  }

  /**
   The freed block joined the free list at position `m`, merged with the neighbours that it touches: links on the
   exact condition, sizes always.
   */
  ghost predicate Joins(mem: Memory, mem': Memory, freeHead': nat, s: seq<nat>, m: nat, a: nat, repaired: bool) {
    var lower := MeetsBelow(mem, s, m, a);
    && m <= |s| && a in mem
    && Dll(mem', freeHead', Joined(s, m, a, lower, MeetsAbove(mem, s, m, a))) == (repaired || m == 0 || lower)
    && Regrows(mem, mem', s, a, if lower then s[m - 1] else a)
    && (lower ==> mem'[s[m - 1]].size == mem[s[m - 1]].size + Above(mem, s, m, a) + HEADER)
    && (!lower ==> mem'[a].size == Above(mem, s, m, a))
  }

  /** Lines 227-310: all four ways in which a freed block joins the free list. */
  method Coalesce(mem: Memory, freeHead: nat, a: nat, below: nat, above: nat, repaired: bool,
                  ghost s: seq<nat>, ghost m: nat)
    returns (mem': Memory, freeHead': nat)
    requires Stopped(mem, freeHead, a, below, above, s, m) || Strayed(mem, freeHead, a, below, above, repaired)
    ensures Stopped(mem, freeHead, a, below, above, s, m) ==> Joins(mem, mem', freeHead', s, m, a, repaired)
    ensures mem'.Keys == mem.Keys
    ensures Strayed(mem, freeHead, a, below, above, repaired) ==>
              && (below == a ==> mem'[a].prev == a)
              && (below == NULL ==> FirstAgain(mem, mem', freeHead', a, above))
  {
    hide Joined, Above, Dll, Distinct;
    if Stopped(mem, freeHead, a, below, above, s, m) {
      WhereStopped(mem, freeHead, a, below, above, s, m);
    }
    mem', freeHead' := mem, freeHead;
    if freeHead == NULL {
      freeHead' := a;
      mem' := SetNext(mem', a, NULL);
      mem' := SetPrev(mem', a, NULL);
      FirstOfAll(mem, mem', freeHead, a, s, m);
    } else if below != NULL {
      if Meets(mem, below, a) {
        mem' := MergeBelow(mem, freeHead, a, below, above, s, m);
      } else {
        mem' := LinkFreed(mem, freeHead, a, below, above, repaired, s, m);
      }
    } else {
      mem', freeHead' := LinkFirst(mem, freeHead, a, above, repaired, s);
    }
  }

  lemma WhereStopped(mem: Memory, freeHead: nat, a: nat, below: nat, above: nat, s: seq<nat>, m: nat)
    requires Stopped(mem, freeHead, a, below, above, s, m)
    ensures forall x :: x in s ==> x != NULL && x in mem
    ensures freeHead == NULL <==> s == []
    ensures below == NULL <==> m == 0
    ensures above == NULL <==> m == |s|
    ensures freeHead == NULL ==> below == NULL && above == NULL
    ensures below != NULL ==> below in mem && MeetsBelow(mem, s, m, a) == Meets(mem, below, a)
  {
    Members(mem, freeHead, s);
    Walk(mem, freeHead, s);
  }

  lemma FirstOfAll(mem: Memory, mem': Memory, head: nat, a: nat, s: seq<nat>, m: nat)
    requires Dll(mem, head, s) && head == NULL && a != NULL && a in mem && m <= |s|
    requires mem' == mem[a := Mcb(NULL, NULL, mem[a].size)]
    ensures s == [] && m == 0 && Dll(mem', a, Joined(s, 0, a, false, false))
    ensures Regrows(mem, mem', s, a, a) && mem'[a].size == Above(mem, s, 0, a)
  {
    Walk(mem, head, s);
  }
}
