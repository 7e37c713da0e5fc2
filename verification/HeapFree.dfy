/**
 free_memory on every pair of lists that it can walk (kernel/memory.c:167-312): right ones, and the two kinds of
 free list that allocate_memory leaves behind when it gives a block away without unlinking it.
 */
module HeapFree {
  import opened Common
  import opened HeapTiles
  import opened HeapLinks

  /** Both lists are right and share no block. */
  ghost predicate Proper(mem: Memory, freeHead: nat, s: seq<nat>, t: seq<nat>) {
    Dll(mem, freeHead, s) && forall x :: x in s ==> x !in t
  }

  /** The free list begins above the block at `a`, and its links lead forward. */
  ghost predicate Headless(mem: Memory, freeHead: nat, s: seq<nat>, t: seq<nat>, a: nat) {
    && s != [] && Chain(mem, freeHead, s) && a in mem && !Meets(mem, a, s[0])
    && forall x :: x in s ==> a < x && x !in t
  }

  /** The free list still leads to the block at `t[k]`, and from there to blocks above it. */
  ghost predicate Crossed(mem: Memory, freeHead: nat, s: seq<nat>, t: seq<nat>, k: nat, p: nat)
    requires k < |t|
  {
    && Chain(mem, freeHead, s) && p < |s| && s[p] == t[k] && At(t, k - 1) !in s
    && (forall i :: 0 <= i < p ==> s[i] < t[k])
    && (forall i :: p < i < |s| ==> t[k] < s[i])
  }

  datatype Shape = Right | Beheaded | Astray(p: nat)

  /** What free_memory may find when the block to free is at `t[k]`. */
  ghost predicate Walkable(mem: Memory, freeHead: nat, allocHead: nat, s: seq<nat>, t: seq<nat>, k: nat,
                           repaired: bool, shape: Shape)
    requires k < |t|
  {
    && Dll(mem, allocHead, t)
    && match shape
       case Right => Proper(mem, freeHead, s, t)
       case Beheaded => Headless(mem, freeHead, s, t, t[k])
       case Astray(p) => !repaired && Crossed(mem, freeHead, s, t, k, p)
  }

  /** What the merge at position `m` of the free list does to the sizes. */
  ghost predicate Resized(mem: Memory, mem': Memory, s: seq<nat>, m: nat, a: nat) {
    var lower := MeetsBelow(mem, s, m, a);
    && a in mem && m <= |s| && mem.Keys == mem'.Keys
    && (forall x :: x in mem && x != (if lower then s[m - 1] else a) ==> mem'[x].size == mem[x].size)
    && (lower ==> mem'[s[m - 1]].size == mem[s[m - 1]].size + Above(mem, s, m, a) + HEADER)
    && (!lower ==> mem'[a].size == Above(mem, s, m, a))
  }

  /** The free list took the block in at position `m`, where its address belongs. */
  ghost predicate TakenIn(mem: Memory, mem': Memory, freeHead': nat, s: seq<nat>, m: nat, a: nat, repaired: bool) {
    && m <= |s| && (forall i :: 0 <= i < m ==> s[i] <= a) && (m < |s| ==> a < s[m])
    && Resized(mem, mem', s, m, a)
    && Dll(mem', freeHead', Joined(s, m, a, MeetsBelow(mem, s, m, a), MeetsAbove(mem, s, m, a)))
       == (repaired || m == 0 || MeetsBelow(mem, s, m, a))
  }

  /** The free list has its first node back. */
  ghost predicate HeadBack(mem: Memory, mem': Memory, freeHead': nat, s: seq<nat>, a: nat)
    requires s != []
  {
    && freeHead' == a && a in mem && s[0] in mem && mem'.Keys == mem.Keys
    && mem'[a] == Mcb(NULL, s[0], mem[a].size) && mem'[s[0]] == mem[s[0]].(prev := a)
    && (forall x :: x in s && x != s[0] && x in mem ==> mem'[x] == mem[x])
    && (forall x :: x in mem ==> mem'[x].size == mem[x].size)
  }

  // ---------------------------------------------------------------- the free list after the block left the other

  /** What RemoveAllocated promises about the rest of memory. */
  ghost predicate Removed(mem: Memory, mem1: Memory, t: seq<nat>, k: nat)
    requires k < |t|
  {
    && t[k] in mem && Touches(mem, mem1, t, t[k]) && mem1[t[k]] == mem[t[k]]
    && forall x :: x in mem && x != At(t, k - 1) ==> mem1[x].next == mem[x].next
  }

  lemma ChainMembers(mem: Memory, head: nat, s: seq<nat>)
    requires Chain(mem, head, s)
    ensures forall x :: x in s ==> x != NULL && x in mem
  {
    forall x | x in s ensures x != NULL && x in mem {
      var i :| 0 <= i < |s| && s[i] == x;
      assert Leads(mem, s, i);
    }
  }

  /** The walk of the free list is as it was. */
  lemma StillWalkable(mem: Memory, mem1: Memory, freeHead: nat, allocHead: nat, s: seq<nat>, t: seq<nat>, k: nat,
                      repaired: bool, shape: Shape)
    requires k < |t| && Walkable(mem, freeHead, allocHead, s, t, k, repaired, shape) && Removed(mem, mem1, t, k)
    ensures Chain(mem1, freeHead, s)
    ensures shape.Right? ==> Dll(mem1, freeHead, s)
  {
    hide Dll, Chain;
    Members(mem, allocHead, t);
    if shape.Right? {
      Forward(mem, freeHead, s);
      ChainMembers(mem, freeHead, s);
      Elsewhere(mem, mem1, freeHead, s);
    } else {
      ChainMembers(mem, freeHead, s);
    }
    assert k > 0 ==> At(t, k - 1) in t;
    SameNexts(mem, mem1, freeHead, s);
  }

  /** Where the walk for the block stops. */
  lemma WalkStops(mem: Memory, mem1: Memory, freeHead: nat, allocHead: nat, s: seq<nat>, t: seq<nat>, k: nat,
                  repaired: bool, shape: Shape, below: nat, above: nat, m: nat)
    requires k < |t| && Walkable(mem, freeHead, allocHead, s, t, k, repaired, shape) && Removed(mem, mem1, t, k)
    requires Chain(mem1, freeHead, s) && (shape.Right? ==> Dll(mem1, freeHead, s)) && t[k] != NULL
    requires m <= |s| && below == At(s, m - 1) && above == At(s, m)
    requires (forall i :: 0 <= i < m ==> s[i] <= t[k]) && (m < |s| ==> t[k] < s[m])
    ensures shape.Right? ==> Stopped(mem1, freeHead, t[k], below, above, s, m)
    ensures !shape.Right? ==> Strayed(mem1, freeHead, t[k], below, above, repaired)
    ensures shape.Beheaded? ==> below == NULL && m == 0
    ensures shape.Astray? ==> below == t[k]
  {
    hide Dll;
    WalkForward(mem1, freeHead, s);
    hide Chain;
    match shape
    case Right =>
    case Beheaded =>
      assert s[0] in s;
      assert m == 0;
      assert |s| > 1 ==> s[1] in s;
    case Astray(p) =>
      assert m == p + 1;
  }

  // ---------------------------------------------------------------- both lists afterwards

  /** Coalescing leaves the allocated list alone. */
  lemma OtherListKept(mem1: Memory, mem': Memory, allocHead': nat, t: seq<nat>, k: nat, s: seq<nat>)
    requires k < |t| && Distinct(t) && Dll(mem1, allocHead', RemoveAt(t, k)) && forall x :: x in s ==> x !in t
    requires mem'.Keys == mem1.Keys && forall x :: x in mem1 && x !in s && x != t[k] ==> mem'[x] == mem1[x]
    ensures Dll(mem', allocHead', RemoveAt(t, k))
  {
    hide Dll;
    Members(mem1, allocHead', RemoveAt(t, k));
    forall x | x in RemoveAt(t, k) ensures x in t && x != t[k] {
      var i :| 0 <= i < |t| - 1 && RemoveAt(t, k)[i] == x;
      assert x == t[if i < k then i else i + 1];
    }
    Elsewhere(mem1, mem', allocHead', RemoveAt(t, k));
  }

  /** The sizes before the block left its list decide how it merges. */
  lemma SameMerge(mem: Memory, mem1: Memory, s: seq<nat>, t: seq<nat>, k: nat, m: nat)
    requires k < |t| && Removed(mem, mem1, t, k) && m <= |s| && forall x :: x in s ==> x in mem
    ensures MeetsBelow(mem1, s, m, t[k]) == MeetsBelow(mem, s, m, t[k])
    ensures MeetsAbove(mem1, s, m, t[k]) == MeetsAbove(mem, s, m, t[k])
    ensures t[k] in mem1 && Above(mem1, s, m, t[k]) == Above(mem, s, m, t[k])
    ensures m > 0 ==> s[m - 1] in mem1 && s[m - 1] in mem && mem1[s[m - 1]].size == mem[s[m - 1]].size
  {
  }

  lemma Outcome(mem: Memory, mem1: Memory, mem': Memory, freeHead': nat, s: seq<nat>, t: seq<nat>,
                k: nat, m: nat, repaired: bool)
    requires k < |t| && Removed(mem, mem1, t, k) && mem1.Keys == mem.Keys && m <= |s|
    requires (forall x :: x in s ==> x in mem)
    requires (forall i :: 0 <= i < m ==> s[i] <= t[k]) && (m < |s| ==> t[k] < s[m])
    requires Joins(mem1, mem', freeHead', s, m, t[k], repaired)
    ensures TakenIn(mem, mem', freeHead', s, m, t[k], repaired)
  {
    hide Dll, Joined, MeetsAbove, Above;
    SameMerge(mem, mem1, s, t, k, m);
  }

  lemma HeadRestored(mem: Memory, mem1: Memory, mem': Memory, freeHead': nat, s: seq<nat>, t: seq<nat>, k: nat)
    requires k < |t| && Removed(mem, mem1, t, k) && mem1.Keys == mem.Keys && s != []
    requires forall x :: x in s ==> x in mem && x !in t && x != t[k]
    requires t[k] in mem1 && s[0] in mem1 && FirstAgain(mem1, mem', freeHead', t[k], s[0])
    ensures HeadBack(mem, mem', freeHead', s, t[k])
  {
    assert s[0] in s;
  }

  /** Lines 167-312 */
  method FreeBlock(mem: Memory, freeHead: nat, allocHead: nat, ptr: nat, repaired: bool,
                   ghost s: seq<nat>, ghost t: seq<nat>, ghost shape: Shape)
    returns (rc: int, mem': Memory, freeHead': nat, allocHead': nat, ghost k: nat, ghost m: nat)
    requires Chain(mem, allocHead, t)
    requires forall k :: 0 <= k < |t| && t[k] == ptr - HEADER ==>
               Walkable(mem, freeHead, allocHead, s, t, k, repaired, shape)
    ensures k <= |t| && rc == if k < |t| then 0 else 1
    ensures k < |t| ==> t[k] == ptr - HEADER
    ensures k == |t| ==> forall i :: 0 <= i < |t| ==> t[i] != ptr - HEADER
    ensures rc == 1 ==> mem' == mem && freeHead' == freeHead && allocHead' == allocHead
    ensures rc == 0 && shape.Right? ==>
              Dll(mem', allocHead', RemoveAt(t, k)) && TakenIn(mem, mem', freeHead', s, m, t[k], repaired)
    ensures rc == 0 && shape.Beheaded? ==>
              Dll(mem', allocHead', RemoveAt(t, k)) && s != [] && HeadBack(mem, mem', freeHead', s, t[k])
    ensures rc == 0 && shape.Astray? ==> t[k] in mem' && mem'[t[k]].prev == t[k]
  {
    hide Dll, Chain, Proper, Headless, Crossed, TakenIn, HeadBack, Joins, FirstAgain, Meets;
    mem', freeHead', allocHead' := mem, freeHead, allocHead;
    m := 0;
    var a;
    WalkForward(mem, allocHead, t);
    a, k := FindNode(mem, allocHead, ptr - HEADER, t);
    if a == NULL {
      return 1, mem', freeHead', allocHead', |t|, 0;
    }
    mem', allocHead' := RemoveAllocated(mem, allocHead, a, t, k);
    ghost var mem1 := mem';
    StillWalkable(mem, mem1, freeHead, allocHead, s, t, k, repaired, shape);
    var below, above;
    below, above, m := FindNeighbours(mem', freeHead, a, s);
    WalkStops(mem, mem1, freeHead, allocHead, s, t, k, repaired, shape, below, above, m);
    mem', freeHead' := Coalesce(mem', freeHead, a, below, above, repaired, s, m);
    rc := 0;
    Outcomes(mem, mem1, mem', freeHead, freeHead', allocHead, allocHead', s, t, k, repaired, shape, below, above, m);
  }

  lemma Outcomes(mem: Memory, mem1: Memory, mem': Memory, freeHead: nat, freeHead': nat, allocHead: nat,
                 allocHead': nat, s: seq<nat>, t: seq<nat>, k: nat, repaired: bool, shape: Shape,
                 below: nat, above: nat, m: nat)
    requires k < |t| && Walkable(mem, freeHead, allocHead, s, t, k, repaired, shape) && Removed(mem, mem1, t, k)
    requires mem1.Keys == mem.Keys == mem'.Keys && t[k] in mem1 && m <= |s|
    requires Dll(mem1, allocHead', RemoveAt(t, k))
    requires (forall i :: 0 <= i < m ==> s[i] <= t[k]) && (m < |s| ==> t[k] < s[m])
    requires shape.Right? ==> Joins(mem1, mem', freeHead', s, m, t[k], repaired)
    requires shape.Beheaded? ==> m == 0 && s != [] && s[0] in mem1 && FirstAgain(mem1, mem', freeHead', t[k], s[0])
    ensures shape.Right? ==>
              Dll(mem', allocHead', RemoveAt(t, k)) && TakenIn(mem, mem', freeHead', s, m, t[k], repaired)
    ensures shape.Beheaded? ==>
              Dll(mem', allocHead', RemoveAt(t, k)) && s != [] && HeadBack(mem, mem', freeHead', s, t[k])
  {
    hide Dll, Chain, TakenIn, HeadBack, Joined, Above, MeetsBelow, MeetsAbove;
    Unrepeated(mem, allocHead, t);
    if shape.Right? {
      Members(mem, freeHead, s);
      OtherListKept(mem1, mem', allocHead', t, k, s);
      Outcome(mem, mem1, mem', freeHead', s, t, k, m, repaired);
    } else if shape.Beheaded? {
      ChainMembers(mem, freeHead, s);
      assert s[0] in s;
      OtherListKept(mem1, mem', allocHead', t, k, s);
      HeadRestored(mem, mem1, mem', freeHead', s, t, k);
    }
  }

  lemma Unrepeated(mem: Memory, head: nat, s: seq<nat>)
    requires Dll(mem, head, s)
    ensures Distinct(s)
  {
  }
}
