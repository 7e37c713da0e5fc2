/**
 The heap of kernel/memory.c: headers in memory, a free list and an allocated list, and the row of blocks
 they describe. With `repaired` set the missing link updates are made; without it the code is as written,
 and each operation says exactly when the lists survive.
 */
module HeapState {
  import opened Common
  import opened HeapTiles
  import opened HeapLinks
  import opened HeapLists
  import opened HeapFree

  /** No free block but the one at `i`. */
  predicate OnlyFree(ts: seq<Tile>, i: nat) {
    forall j :: 0 <= j < |ts| && j != i ==> !ts[j].free
  }

  /** When the code as written links the lists properly on allocation from block `i`. */
  predicate AllocatesSoundly(ts: seq<Tile>, i: nat, n: nat)
    requires i < |ts|
  {
    && (Splits(ts[i], n) || OnlyFree(ts, i))
    && (0 < i || |ts| == 1)
  }

  predicate NoneFreeBelow(ts: seq<Tile>, j: nat)
    requires j < |ts|
  {
    forall i :: 0 <= i < j ==> !ts[i].free
  }

  /** When the code as written links the lists properly on freeing block `j`. */
  predicate ReleasesSoundly(ts: seq<Tile>, j: nat)
    requires j < |ts|
  {
    FreeBelow(ts, j) || NoneFreeBelow(ts, j)
  }

  /** Freeing the block just allocated goes well exactly when no free block lies below it. */
  lemma UndoneSoundly(ts: seq<Tile>, i: nat, n: nat)
    requires Coalesced(ts) && i < |ts| && Fits(ts[i], n)
    ensures i < |Allocate(ts, i, n)| && (ReleasesSoundly(Allocate(ts, i, n), i) <==> NoneFreeBelow(ts, i))
  {
    var ts' := Allocate(ts, i, n);
    assert ts'[..i] == ts[..i];
    assert forall k :: 0 <= k < i ==> ts'[k] == ts'[..i][k] == ts[k];
    assert i > 0 ==> !BothFree(ts, i - 1);
  }

  // ---------------------------------------------------------------- reading conditions off the lists

  lemma {:induction false} AddrsEmpty(ts: seq<Tile>, free: bool)
    ensures Addrs(ts, free) == [] <==> forall j :: 0 <= j < |ts| ==> ts[j].free != free
  {
    if ts != [] {
      AddrsEmpty(ts[1..], free);
      assert forall j :: 0 <= j < |ts[1..]| ==> ts[1..][j] == ts[j + 1];
      assert forall j :: 0 < j < |ts| ==> ts[j] == ts[1..][j - 1];
    }
  }

  lemma AloneOnList(ts: seq<Tile>, i: nat)
    requires i < |ts| && ts[i].free
    ensures |Addrs(ts, true)| == 1 <==> OnlyFree(ts, i)
  {
    hide Addrs;
    ListAt(ts, i, true);
    AddrsEmpty(ts[..i], true);
    AddrsEmpty(ts[i + 1..], true);
    assert forall j :: i < j < |ts| ==> ts[j] == ts[i + 1..][j - i - 1];
  }

  /** Free neighbours being merged, a free block is first on the allocated list's side only if it is the first block. */
  lemma FirstAllocated(ts: seq<Tile>, i: nat)
    requires Coalesced(ts) && i < |ts| && ts[i].free
    ensures Addrs(ts, false) == [] || Pos(ts, i, false) > 0 <==> 0 < i || |ts| == 1
  {
    hide Addrs;
    AddrsEmpty(ts[..i], false);
    AddrsEmpty(ts, false);
    if 0 < i {
      assert !BothFree(ts, i - 1);
      assert !ts[..i][i - 1].free;
    } else if |ts| > 1 {
      assert !BothFree(ts, 0);
      assert !ts[1].free;
    }
  }

  lemma FreeBelowOnList(ts: seq<Tile>, j: nat)
    requires j < |ts|
    ensures Pos(ts, j, true) == 0 <==> forall i :: 0 <= i < j ==> !ts[i].free
  {
    AddrsEmpty(ts[..j], true);
  }

  // ---------------------------------------------------------------- sizes

  lemma SizeOf(mem: Memory, ts: seq<Tile>, i: nat)
    requires Sizes(mem, ts) && i < |ts|
    ensures SizeAt(mem, ts[i])
  {
  }

  lemma AllocateSizes(mem: Memory, mem': Memory, ts: seq<Tile>, base: nat, limit: nat, i: nat, n: nat)
    requires Tiling(ts, base, limit) && i < |ts| && Fits(ts[i], n) && Sizes(mem, ts)
    requires forall x :: x in mem && x != ts[i].addr && !(Splits(ts[i], n) && x == ts[i].addr + HEADER + n) ==>
               x in mem' && mem'[x].size == mem[x].size
    requires SizeAt(mem', Tile(ts[i].addr, Granted(ts[i], n), false))
    requires Splits(ts[i], n) ==> SizeAt(mem', Tile(ts[i].addr + HEADER + n, ts[i].size - HEADER - n, true))
    ensures Sizes(mem', Allocate(ts, i, n))
  {
    AddressOrder(ts, base, limit);
    var ts' := Allocate(ts, i, n);
    var shift := |ts'| - |ts|;
    forall k | 0 <= k < |ts'| ensures SizeAt(mem', ts'[k]) {
      if k < i {
        assert SizeAt(mem, ts[k]);
      } else if k > i + shift {
        assert SizeAt(mem, ts[k - shift]);
      }
    }
  }

  lemma ReleaseSizes(mem: Memory, mem': Memory, ts: seq<Tile>, base: nat, limit: nat, j: nat)
    requires Tiling(ts, base, limit) && j < |ts| && !ts[j].free && Sizes(mem, ts)
    requires forall x :: x in mem && x != ts[MergeStart(ts, j)].addr ==> x in mem' && mem'[x].size == mem[x].size
    requires SizeAt(mem', Release(ts, j)[MergeStart(ts, j)])
    ensures Sizes(mem', Release(ts, j))
  {
    AddressOrder(ts, base, limit);
    MergedRow(ts, j);
    hide Tiling, Release, FreeBelow, FreeAbove;
    var ts', lo := Release(ts, j), MergeStart(ts, j);
    var shift := |ts| - |ts'|;
    forall k | 0 <= k < |ts'| ensures SizeAt(mem', ts'[k]) {
      if k < lo {
        assert SizeAt(mem, ts[k]);
      } else if k > lo {
        assert SizeAt(mem, ts[k + shift]);
      }
    }
  }

  // ---------------------------------------------------------------- allocate_memory

  /** Where the remainder of block `i` gets its header; the block itself when nothing remains. */
  function Remainder(t: Tile, n: nat): nat {
    if Splits(t, n) then t.addr + HEADER + n else t.addr
  }

  /** Lines 95-128: the free list gives block `i` away. */
  method TakeFree(mem: Memory, freeHead: nat, select: nat, n: nat, replace: bool, repaired: bool,
                  ghost ts: seq<Tile>, ghost base: nat, ghost limit: nat, ghost i: nat)
    returns (mem': Memory, freeHead': nat, size: nat)
    requires Tiling(ts, base, limit) && i < |ts| && Fits(ts[i], n)
    requires Dll(mem, freeHead, Addrs(ts, true)) && Sizes(mem, ts)
    requires select == ts[i].addr && replace == !Splits(ts[i], n)
    ensures Dll(mem', freeHead', Addrs(Allocate(ts, i, n), true))
         == (repaired || Splits(ts[i], n) || OnlyFree(ts, i))
    ensures Touches(mem, mem', Addrs(ts, true), Remainder(ts[i], n))
    ensures Splits(ts[i], n) ==> SizeAt(mem', Tile(Remainder(ts[i], n), ts[i].size - HEADER - n, true))
    ensures size == Granted(ts[i], n) && select in mem' && mem'[select].size == mem[select].size
    ensures !repaired && !Splits(ts[i], n) ==>
              mem' == mem && freeHead' == if Pos(ts, i, true) == 0 then At(Addrs(ts, true), 1) else freeHead
  {
    hide Addrs, Dll, Sizes, Allocate, Before, After, OnlyFree, Tiling;
    SizeOf(mem, ts, i);
    AllocateOnLists(ts, i, n);
    ghost var s, k := Addrs(ts, true), Pos(ts, i, true);
    if !replace {
      Interior(ts, base, limit, i, Remainder(ts[i], n), true);
      mem', freeHead' := SplitFree(mem, freeHead, select, n + HEADER, s, k);
      size := n;
    } else {
      size := mem[select].size;
      mem', freeHead' := ReplaceFree(mem, freeHead, select, repaired, s, k);
      AloneOnList(ts, i);
    }
  }

  /** The walk along the allocated list misses block `i`, which the first node of that list points back to. */
  ghost predicate Unreached(mem: Memory, allocHead: nat, ts: seq<Tile>, i: nat)
    requires i < |ts|
  {
    var t := Addrs(ts, false);
    && Chain(mem, allocHead, t) && ts[i].addr !in t
    && t != [] && t[0] in mem && mem[t[0]].prev == ts[i].addr
  }

  /** The free list was left alone when block `i` was given away whole; only its head may have moved on. */
  ghost predicate Passed(mem: Memory, mem': Memory, freeHead: nat, freeHead': nat, ts: seq<Tile>, i: nat)
    requires i < |ts|
  {
    var s := Addrs(ts, true);
    && freeHead' == (if Pos(ts, i, true) == 0 then At(s, 1) else freeHead)
    && forall x :: x in s && x != ts[i].addr ==> x in mem && x in mem' && mem'[x] == mem[x]
  }

  /** Lines 74-93 and 130-154: the allocated list receives block `i`. */
  method PutAllocated(mem: Memory, allocHead: nat, select: nat, size: nat, below: nat, above: nat, repaired: bool,
                      ghost ts: seq<Tile>, ghost i: nat, ghost n: nat)
    returns (mem': Memory, allocHead': nat)
    requires Coalesced(ts) && i < |ts| && Fits(ts[i], n)
    requires Dll(mem, allocHead, Addrs(ts, false))
    requires select == ts[i].addr && select in mem && select != NULL && select !in Addrs(ts, false)
    requires below == At(Addrs(ts, false), Pos(ts, i, false) - 1) && above == At(Addrs(ts, false), Pos(ts, i, false))
    ensures Dll(mem', allocHead', Addrs(Allocate(ts, i, n), false)) == (repaired || 0 < i || |ts| == 1)
    ensures Touches(mem, mem', Addrs(ts, false), select) && mem'[select].size == size
    ensures !Found(ts, i, repaired) ==> Unreached(mem', allocHead', ts, i)
  {
    hide Addrs, Dll, Allocate, Before, After;
    AllocateOnLists(ts, i, n);
    FirstAllocated(ts, i);
    mem', allocHead' := InsertAllocated(mem, allocHead, select, size, below, above, repaired,
                                        Addrs(ts, false), Pos(ts, i, false));
  }

  /**
   The free list after an allocation, unless the block it moved to is the allocated one, is disjoint from the
   allocated list.
   */
  lemma Apart(ts: seq<Tile>, base: nat, limit: nat, i: nat, n: nat)
    requires Tiling(ts, base, limit) && i < |ts| && Fits(ts[i], n)
    ensures ts[i].addr !in Addrs(ts, false)
    ensures forall x :: x in Addrs(ts, false) ==> x !in Addrs(ts, true) && x != Remainder(ts[i], n)
    ensures forall x :: x in Addrs(Allocate(ts, i, n), true) ==>
              x !in Addrs(ts, false) && x != ts[i].addr && (x in Addrs(ts, true) || x == Remainder(ts[i], n))
  {
    hide Addrs, Allocate, Before, After;
    Separate(ts, base, limit);
    AllocateOnLists(ts, i, n);
    AllocateLists(ts, i, n, true);
    ListOrder(ts, base, limit, i, true);
    ListAt(ts, i, true);
    assert ts[i].addr in Addrs(ts, true);
    if Splits(ts[i], n) {
      Interior(ts, base, limit, i, Remainder(ts[i], n), false);
    }
  }

  /** Whether allocation puts block `i` where a walk along the allocated list finds it. */
  predicate Found(ts: seq<Tile>, i: nat, repaired: bool) {
    repaired || 0 < i || |ts| == 1
  }

  /** What is left of the lists after allocation from block `i`, however wrong they are. */
  ghost predicate Taken(mem: Memory, mem': Memory, freeHead: nat, freeHead': nat, allocHead': nat,
                        ts: seq<Tile>, i: nat, n: nat, repaired: bool)
    requires i < |ts| && Fits(ts[i], n)
  {
    var ts' := Allocate(ts, i, n);
    && Sizes(mem', ts')
    && Dll(mem', allocHead', Addrs(ts', false)) == Found(ts, i, repaired)
    && (!Found(ts, i, repaired) ==> Unreached(mem', allocHead', ts, i))
    && Describes(mem', freeHead', allocHead', ts') == (repaired || AllocatesSoundly(ts, i, n))
    && (!repaired && !Splits(ts[i], n) ==> Passed(mem, mem', freeHead, freeHead', ts, i))
  }

  /** What allocate_memory does to memory and the list heads. */
  method Take(mem: Memory, freeHead: nat, allocHead: nat, n: nat, repaired: bool,
              ghost ts: seq<Tile>, ghost base: nat, ghost limit: nat)
    returns (ptr: nat, mem': Memory, freeHead': nat, allocHead': nat)
    requires WellFormed(ts, base, limit) && Describes(mem, freeHead, allocHead, ts)
    ensures ptr == NULL <==> FirstFit(ts, n) == |ts|
    ensures ptr == NULL ==> mem' == mem && freeHead' == freeHead && allocHead' == allocHead
    ensures ptr != NULL ==>
              && ptr == ts[FirstFit(ts, n)].addr + HEADER
              && Describes(mem', freeHead', allocHead', Allocate(ts, FirstFit(ts, n), n))
              == (repaired || AllocatesSoundly(ts, FirstFit(ts, n), n))
    ensures ptr != NULL ==> Taken(mem, mem', freeHead, freeHead', allocHead', ts, FirstFit(ts, n), n, repaired)
  {
    hide Addrs, Dll, Sizes, Allocate, FirstFit, Before, After, OnlyFree, Tiling, Coalesced, Unreached, Chain;
    ghost var i := FirstFit(ts, n);
    ghost var s, t := Addrs(ts, true), Addrs(ts, false);
    var select, replace, k := FindFit(mem, freeHead, n, s);
    Members(mem, freeHead, s);
    FitPosition(mem, ts, n, k);
    mem', freeHead', allocHead' := mem, freeHead, allocHead;
    if select == NULL {
      return NULL, mem', freeHead', allocHead';
    }
    SizeOf(mem, ts, i);
    Apart(ts, base, limit, i, n);
    Forward(mem, allocHead, t);
    var below, above, m := FindNeighbours(mem, allocHead, select, t);
    CutPosition(ts, base, limit, i, t, m);
    var size: nat;
    mem', freeHead', size := TakeFree(mem, freeHead, select, n, replace, repaired, ts, base, limit, i);
    ghost var mem1 := mem';
    Members(mem, allocHead, t);
    Elsewhere(mem, mem1, allocHead, t);
    mem', allocHead' := PutAllocated(mem', allocHead, select, size, below, above, repaired, ts, i, n);
    Elsewhere(mem1, mem', freeHead', Addrs(Allocate(ts, i, n), true));
    AllocateSizes(mem, mem', ts, base, limit, i, n);
    ptr := select + HEADER;
  }

  // ---------------------------------------------------------------- free_memory

  /** The free block listed before block `j` touches it exactly when it is the block below. */
  lemma TouchesBelow(mem: Memory, ts: seq<Tile>, base: nat, limit: nat, j: nat)
    requires Tiling(ts, base, limit) && j < |ts| && !ts[j].free && Sizes(mem, ts)
    ensures MeetsBelow(mem, Addrs(ts, true), Pos(ts, j, true), ts[j].addr) == FreeBelow(ts, j)
  {
    hide Addrs, Release;
    var s, m := Addrs(ts, true), Pos(ts, j, true);
    ReleaseOnLists(ts, j);
    if 0 < m {
      ListAt(ts, j, true);
      assert s[m - 1] == Before(ts, j, true)[m - 1];
      AddrsMember(ts[..j], true, s[m - 1]);
      var p :| 0 <= p < j && ts[p].free && ts[p].addr == s[m - 1];
      SizeOf(mem, ts, p);
      AddressOrder(ts, base, limit);
      assert Touch(ts, j - 1);
    }
  }

  lemma TouchesAbove(mem: Memory, ts: seq<Tile>, base: nat, limit: nat, j: nat)
    requires Tiling(ts, base, limit) && j < |ts| && !ts[j].free && Sizes(mem, ts)
    ensures MeetsAbove(mem, Addrs(ts, true), Pos(ts, j, true), ts[j].addr) == FreeAbove(ts, j)
  {
    hide Addrs, Release;
    var s, m := Addrs(ts, true), Pos(ts, j, true);
    ReleaseOnLists(ts, j);
    SizeOf(mem, ts, j);
    if m < |s| {
      ListAt(ts, j, true);
      assert s[m] == After(ts, j, true)[0];
      AddrsMember(ts[j + 1..], true, s[m]);
      var p :| j < p < |ts| && ts[p].free && ts[p].addr == s[m];
      SizeOf(mem, ts, p);
      AddressOrder(ts, base, limit);
      assert Touch(ts, j);
    }
  }

  /** The sizes that coalescing leaves are those of the merged row. */
  lemma Regrown(mem: Memory, mem': Memory, ts: seq<Tile>, base: nat, limit: nat, j: nat)
    requires Tiling(ts, base, limit) && j < |ts| && !ts[j].free && Sizes(mem, ts)
    requires Resized(mem, mem', Addrs(ts, true), Pos(ts, j, true), ts[j].addr)
    ensures Sizes(mem', Release(ts, j))
  {
    hide Addrs, Before, After, Sizes, Tiling, Joined, MeetsBelow, MeetsAbove;
    TouchesBelow(mem, ts, base, limit, j);
    TouchesAbove(mem, ts, base, limit, j);
    ReleaseOnLists(ts, j);
    SizeOf(mem, ts, j);
    if FreeBelow(ts, j) {
      SizeOf(mem, ts, j - 1);
    }
    if FreeAbove(ts, j) {
      SizeOf(mem, ts, j + 1);
    }
    ReleaseSizes(mem, mem', ts, base, limit, j);
  }

  /** A block taken in where its address belongs leaves headers that describe the merged row, on the exact condition. */
  lemma Given(mem: Memory, mem': Memory, freeHead': nat, allocHead': nat, ts: seq<Tile>, base: nat, limit: nat,
              j: nat, m: nat, repaired: bool)
    requires Tiling(ts, base, limit) && Sizes(mem, ts) && j < |ts| && !ts[j].free
    requires Pos(ts, j, false) < |Addrs(ts, false)|
    requires Dll(mem', allocHead', RemoveAt(Addrs(ts, false), Pos(ts, j, false)))
    requires TakenIn(mem, mem', freeHead', Addrs(ts, true), m, ts[j].addr, repaired)
    ensures Describes(mem', freeHead', allocHead', Release(ts, j)) == (repaired || ReleasesSoundly(ts, j))
  {
    hide Addrs, Before, After, Dll, Sizes, Tiling, Release, Joined, MeetsBelow, MeetsAbove, Resized;
    CutPosition(ts, base, limit, j, Addrs(ts, true), m);
    TouchesBelow(mem, ts, base, limit, j);
    TouchesAbove(mem, ts, base, limit, j);
    ReleaseOnLists(ts, j);
    FreeBelowOnList(ts, j);
    Regrown(mem, mem', ts, base, limit, j);
  }

  /** What free_memory does to memory and the list heads. */
  method Give(mem: Memory, freeHead: nat, allocHead: nat, ptr: nat, repaired: bool,
              ghost ts: seq<Tile>, ghost base: nat, ghost limit: nat)
    returns (rc: int, mem': Memory, freeHead': nat, allocHead': nat)
    requires WellFormed(ts, base, limit) && Describes(mem, freeHead, allocHead, ts)
    ensures rc == if Find(ts, ptr) < |ts| then 0 else 1
    ensures rc == 1 ==> mem' == mem && freeHead' == freeHead && allocHead' == allocHead
    ensures rc == 0 ==>
              && Describes(mem', freeHead', allocHead', Release(ts, Find(ts, ptr)))
              == (repaired || ReleasesSoundly(ts, Find(ts, ptr)))
  {
    hide Addrs, Dll, Chain, Sizes, Release, Find, Before, After, Tiling, Coalesced, TakenIn;
    ghost var j := Find(ts, ptr);
    ghost var s, t := Addrs(ts, true), Addrs(ts, false);
    Members(mem, allocHead, t);
    Unrepeated(mem, allocHead, t);
    Forward(mem, allocHead, t);
    Separate(ts, base, limit);
    ghost var k, m;
    rc, mem', freeHead', allocHead', k, m := FreeBlock(mem, freeHead, allocHead, ptr, repaired, s, t, Right);
    HeaderPosition(ts, ptr, At(t, k), k);
    if rc == 0 {
      Given(mem, mem', freeHead', allocHead', ts, base, limit, j, m, repaired);
    }
  }

  // ---------------------------------------------------------------- the round trip of the code as written

  /** Whether the heap is as it was after block `i` is allocated and freed again. */
  predicate TripSound(ts: seq<Tile>, i: nat, repaired: bool)
    requires i < |ts|
  {
    repaired || (Found(ts, i, repaired) && NoneFreeBelow(ts, i))
  }

  /** The block is on the allocated list, and the free list was not told. */
  predicate GivenWhole(ts: seq<Tile>, i: nat, n: nat, repaired: bool)
    requires i < |ts|
  {
    Found(ts, i, repaired) && !repaired && !AllocatesSoundly(ts, i, n)
  }

  /** What the forward links of the free list spell after allocation. */
  function FreeWalk(ts: seq<Tile>, i: nat, n: nat, repaired: bool): seq<nat>
    requires i < |ts| && Fits(ts[i], n)
  {
    var s, k := Addrs(ts, true), Pos(ts, i, true);
    if !GivenWhole(ts, i, n, repaired) then Addrs(Allocate(ts, i, n), true)
    else if k == 0 then After(ts, i, true)
    else Before(ts, i, true) + [ts[i].addr] + After(ts, i, false)
  }

  function WalkShape(ts: seq<Tile>, i: nat, n: nat, repaired: bool): Shape
    requires i < |ts|
  {
    if !GivenWhole(ts, i, n, repaired) then Right
    else if Pos(ts, i, true) == 0 then Beheaded
    else Astray(Pos(ts, i, true))
  }

  /** Both lists around block `i`, given away whole. */
  lemma WholeLists(ts: seq<Tile>, i: nat, n: nat)
    requires i < |ts| && Fits(ts[i], n) && !Splits(ts[i], n)
    ensures Addrs(ts, true) == Before(ts, i, true) + [ts[i].addr] + After(ts, i, true)
    ensures Addrs(ts, false) == Before(ts, i, false) + After(ts, i, false)
    ensures Addrs(Allocate(ts, i, n), true) == Before(ts, i, true) + After(ts, i, true)
    ensures Addrs(Allocate(ts, i, n), false) == Before(ts, i, false) + [ts[i].addr] + After(ts, i, false)
  {
    hide Addrs, Before, After, Allocate, Tiling, Coalesced;
    ListAt(ts, i, true);
    ListAt(ts, i, false);
    AllocateLists(ts, i, n, true);
    AllocateLists(ts, i, n, false);
  }

  lemma NothingBefore(ts: seq<Tile>, i: nat, free: bool)
    requires i < |ts| && Pos(ts, i, free) == 0
    ensures Before(ts, i, free) == []
  {
  }

  /** Where the addresses on either list lie. */
  lemma WholeOrder(ts: seq<Tile>, base: nat, limit: nat, i: nat)
    requires Tiling(ts, base, limit) && i < |ts|
    ensures forall x :: x in Addrs(ts, true) ==> x !in Addrs(ts, false)
    ensures forall x :: x in Before(ts, i, true) || x in Before(ts, i, false) ==> x < ts[i].addr
    ensures forall x :: x in After(ts, i, true) || x in After(ts, i, false) ==> ts[i].addr < x
  {
    hide Addrs, Before, After, Tiling;
    ListOrder(ts, base, limit, i, true);
    ListOrder(ts, base, limit, i, false);
    Separate(ts, base, limit);
  }

  /** The links of the free list as they were, its first node gone. */
  lemma LeftBeheaded(mem: Memory, mem1: Memory, freeHead: nat, freeHead1: nat, ts: seq<Tile>,
                     base: nat, limit: nat, i: nat, n: nat)
    requires WellFormed(ts, base, limit) && i < |ts| && Fits(ts[i], n) && !Splits(ts[i], n) && !OnlyFree(ts, i)
    requires Dll(mem, freeHead, Addrs(ts, true)) && Passed(mem, mem1, freeHead, freeHead1, ts, i)
    requires Sizes(mem1, Allocate(ts, i, n)) && Pos(ts, i, true) == 0
    ensures Headless(mem1, freeHead1, After(ts, i, true), Addrs(Allocate(ts, i, n), false), ts[i].addr)
  {
    hide Addrs, Before, After, Allocate, Tiling, Coalesced, Dll, Chain, OnlyFree, Sizes;
    WholeLists(ts, i, n);
    WholeOrder(ts, base, limit, i);
    AloneOnList(ts, i);
    var s, s1, a := Addrs(ts, true), After(ts, i, true), ts[i].addr;
    assert Before(ts, i, true) == [] by {
      NothingBefore(ts, i, true);
    }
    assert s == [a] + s1;
    assert s[1..] == s1;
    Tail(mem, mem1, freeHead, s);
    WholeSize(mem1, ts, base, limit, i, n);
    NotTouching(mem1, ts, base, limit, i, n);
    assert forall x :: x in s1 ==> x in s;
    assert forall x :: x in s1 ==> x !in Addrs(Allocate(ts, i, n), false);
  }

  /** The links of the free list lead to the block that was given away, and on along the allocated list. */
  lemma LeftAstray(mem: Memory, mem1: Memory, freeHead: nat, freeHead1: nat, allocHead1: nat, ts: seq<Tile>,
                   base: nat, limit: nat, i: nat, n: nat)
    requires WellFormed(ts, base, limit) && i < |ts| && Fits(ts[i], n) && !Splits(ts[i], n)
    requires Dll(mem, freeHead, Addrs(ts, true)) && Passed(mem, mem1, freeHead, freeHead1, ts, i)
    requires Dll(mem1, allocHead1, Addrs(Allocate(ts, i, n), false)) && 0 < Pos(ts, i, true)
    ensures var t := Addrs(Allocate(ts, i, n), false); var k := Pos(ts, i, false);
            && k < |t| && t[k] == ts[i].addr
            && Crossed(mem1, freeHead1, Before(ts, i, true) + [ts[i].addr] + After(ts, i, false), t, k,
                       Pos(ts, i, true))
  {
    hide Addrs, Before, After, Allocate, Tiling, Coalesced, Dll, Chain;
    WholeLists(ts, i, n);
    WholeOrder(ts, base, limit, i);
    var a, x, y, z, v := ts[i].addr, Before(ts, i, true), Before(ts, i, false), After(ts, i, false), After(ts, i, true);
    FirstPart(mem, mem1, freeHead, x, a, v);
    Forward(mem1, allocHead1, y + [a] + z);
    Unrepeated(mem1, allocHead1, y + [a] + z);
    CrossingChain(mem1, freeHead1, x, a, y, z);
    forall u | u in x ensures u !in y {
      assert u in x + [a] + v;
    }
    ChainMembers(mem1, freeHead1, x + [a] + z);
    CrossingOrder(x, a, y, z);
  }

  /** The list up to `a`, as long as its links are kept. */
  lemma FirstPart(mem: Memory, mem1: Memory, head: nat, x: seq<nat>, a: nat, v: seq<nat>)
    requires Dll(mem, head, x + [a] + v) && x != []
    requires forall u :: u in x + [a] + v && u != a ==> u in mem && u in mem1 && mem1[u] == mem[u]
    ensures head == x[0]
    ensures forall i :: 0 <= i < |x| ==> x[i] != NULL && x[i] in mem1 && mem1[x[i]].next == At(x + [a], i + 1)
  {
    var s := x + [a] + v;
    assert s[|x|] == a;
    forall i | 0 <= i < |x|
      ensures x[i] != NULL && x[i] in mem1 && mem1[x[i]].next == At(x + [a], i + 1)
    {
      assert Node(mem, s, i) && s[i] == x[i] && s[i] in s && s[i] != s[|x|];
      assert s[i + 1] == (x + [a])[i + 1];
    }
  }

  /** Where two lists cross at `a`: the first leads there, the second leads on. */
  lemma CrossingChain(mem: Memory, head: nat, x: seq<nat>, a: nat, y: seq<nat>, z: seq<nat>)
    requires x != [] && head == x[0]
    requires forall i :: 0 <= i < |x| ==> x[i] != NULL && x[i] in mem && mem[x[i]].next == At(x + [a], i + 1)
    requires Chain(mem, At(y + [a] + z, 0), y + [a] + z)
    ensures Chain(mem, head, x + [a] + z)
  {
    var w, t := x + [a] + z, y + [a] + z;
    forall i | 0 <= i < |w| ensures Leads(mem, w, i) {
      if i < |x| {
        assert w[i] == x[i] && w[i + 1] == (x + [a])[i + 1];
      } else {
        var l := |y| + (i - |x|);
        assert Leads(mem, t, l) && w[i] == t[l] && At(w, i + 1) == At(t, l + 1);
      }
    }
  }

  lemma CrossingOrder(x: seq<nat>, a: nat, y: seq<nat>, z: seq<nat>)
    requires forall u :: u in x || u in y ==> u < a
    requires forall u :: u in z ==> a < u
    requires forall u :: u in x ==> u !in y
    requires 0 !in x + [a] + z
    ensures var w, t := x + [a] + z, y + [a] + z;
            && w[|x|] == t[|y|] == a && At(t, |y| - 1) !in w
            && (forall i :: 0 <= i < |x| ==> w[i] < a)
            && (forall i :: |x| < i < |w| ==> a < w[i])
  {
    var w, t := x + [a] + z, y + [a] + z;
    forall i | 0 <= i < |x| ensures w[i] < a {
      assert w[i] == x[i] && x[i] in x;
    }
    forall i | |x| < i < |w| ensures a < w[i] {
      assert w[i] == z[i - |x| - 1] && z[i - |x| - 1] in z;
    }
    if y != [] {
      assert t[|y| - 1] == y[|y| - 1] && y[|y| - 1] in y;
    }
  }

  /** The chain behind the first node, as long as its links are kept. */
  lemma Tail(mem: Memory, mem1: Memory, head: nat, s: seq<nat>)
    requires Dll(mem, head, s) && s != []
    requires forall x :: x in s && x != s[0] ==> x in mem && x in mem1 && mem1[x] == mem[x]
    ensures Chain(mem1, At(s, 1), s[1..])
  {
    forall i | 0 <= i < |s[1..]| ensures Leads(mem1, s[1..], i) {
      assert Node(mem, s, i + 1) && s[i + 1] in s && s[i + 1] != s[0];
    }
  }

  lemma WholeSize(mem1: Memory, ts: seq<Tile>, base: nat, limit: nat, i: nat, n: nat)
    requires i < |ts| && Fits(ts[i], n) && !Splits(ts[i], n) && Sizes(mem1, Allocate(ts, i, n))
    ensures ts[i].addr in mem1 && mem1[ts[i].addr].size == ts[i].size
    ensures forall k :: 0 <= k < |ts| && k != i ==> SizeAt(mem1, ts[k])
    ensures Sizes(mem1, ts)
  {
    var ts' := Allocate(ts, i, n);
    assert SizeAt(mem1, ts'[i]);
    forall k | 0 <= k < |ts| ensures SizeAt(mem1, ts[k]) {
      assert SizeAt(mem1, ts'[k]);
    }
  }

  /** The free block that comes next does not touch block `i`, or they would have been merged. */
  lemma NotTouching(mem1: Memory, ts: seq<Tile>, base: nat, limit: nat, i: nat, n: nat)
    requires WellFormed(ts, base, limit) && i < |ts| && Fits(ts[i], n) && !Splits(ts[i], n)
    requires Sizes(mem1, Allocate(ts, i, n)) && ts[i].addr in mem1
    ensures After(ts, i, true) != [] ==> !Meets(mem1, ts[i].addr, After(ts, i, true)[0])
  {
    hide Addrs, Before, Sizes;
    var x := After(ts, i, true);
    if x != [] {
      WholeSize(mem1, ts, base, limit, i, n);
      AddrsMember(ts[i + 1..], true, x[0]);
      var q :| 0 <= q < |ts[i + 1..]| && ts[i + 1..][q].free && ts[i + 1..][q].addr == x[0];
      assert !BothFree(ts, i);
      AddressOrder(ts, base, limit);
    }
  }

  lemma AfterTake(mem: Memory, mem1: Memory, freeHead: nat, freeHead1: nat, allocHead1: nat,
                  ts: seq<Tile>, base: nat, limit: nat, i: nat, n: nat, repaired: bool)
    requires WellFormed(ts, base, limit) && i < |ts| && Fits(ts[i], n) && Found(ts, i, repaired)
    requires Dll(mem, freeHead, Addrs(ts, true))
    requires Taken(mem, mem1, freeHead, freeHead1, allocHead1, ts, i, n, repaired)
    ensures var t := Addrs(Allocate(ts, i, n), false); var k := Pos(ts, i, false);
            && k < |t| && t[k] == ts[i].addr && Distinct(t)
            && Walkable(mem1, freeHead1, allocHead1, FreeWalk(ts, i, n, repaired), t, k, repaired,
                        WalkShape(ts, i, n, repaired))
  {
    hide Addrs, Before, After, Allocate, Tiling, Coalesced, Dll, Chain, Headless, Crossed, Passed, Sizes, OnlyFree;
    var ts' := Allocate(ts, i, n);
    AllocateOnLists(ts, i, n);
    Unrepeated(mem1, allocHead1, Addrs(ts', false));
    if !GivenWhole(ts, i, n, repaired) {
      AllocateKeeps(ts, base, limit, i, n);
      Separate(ts', base, limit);
    } else if Pos(ts, i, true) == 0 {
      LeftBeheaded(mem, mem1, freeHead, freeHead1, ts, base, limit, i, n);
    } else {
      LeftAstray(mem, mem1, freeHead, freeHead1, allocHead1, ts, base, limit, i, n);
    }
  }

  /** The block rejoined proper lists. */
  lemma TripRight(mem1: Memory, mem': Memory, freeHead': nat, allocHead': nat, ts: seq<Tile>,
                  base: nat, limit: nat, i: nat, n: nat, m: nat, repaired: bool)
    requires WellFormed(ts, base, limit) && i < |ts| && Fits(ts[i], n)
    requires repaired || AllocatesSoundly(ts, i, n)
    requires var ts' := Allocate(ts, i, n);
             && Sizes(mem1, ts') && Distinct(Addrs(ts', false)) && Pos(ts, i, false) < |Addrs(ts', false)|
             && Addrs(ts', false)[Pos(ts, i, false)] == ts[i].addr
             && Dll(mem', allocHead', RemoveAt(Addrs(ts', false), Pos(ts, i, false)))
             && TakenIn(mem1, mem', freeHead', Addrs(ts', true), m, ts[i].addr, repaired)
    ensures Describes(mem', freeHead', allocHead', ts) == TripSound(ts, i, repaired)
  {
    hide Addrs, Before, After, Release, Tiling, Coalesced, Dll, TakenIn, Sizes, Describes, ReleasesSoundly;
    var ts' := Allocate(ts, i, n);
    AllocateKeeps(ts, base, limit, i, n);
    FreeUndoesAllocate(ts, i, n);
    UndoneSoundly(ts, i, n);
    ReleaseOnLists(ts', i);
    Given(mem1, mem', freeHead', allocHead', ts', base, limit, i, m, repaired);
  }

  /** The block rejoined a free list whose first node it had been. */
  lemma TripBeheaded(mem: Memory, mem1: Memory, mem': Memory, freeHead: nat, freeHead1: nat, freeHead': nat,
                     allocHead': nat, ts: seq<Tile>, base: nat, limit: nat, i: nat, n: nat)
    requires WellFormed(ts, base, limit) && i < |ts| && Fits(ts[i], n) && !Splits(ts[i], n)
    requires Dll(mem, freeHead, Addrs(ts, true)) && Passed(mem, mem1, freeHead, freeHead1, ts, i)
    requires Sizes(mem1, Allocate(ts, i, n)) && Pos(ts, i, true) == 0 && After(ts, i, true) != []
    requires HeadBack(mem1, mem', freeHead', After(ts, i, true), ts[i].addr)
    requires var t := Addrs(Allocate(ts, i, n), false);
             Pos(ts, i, false) < |t| && Dll(mem', allocHead', RemoveAt(t, Pos(ts, i, false)))
    ensures Describes(mem', freeHead', allocHead', ts)
  {
    hide Addrs, Before, After, Allocate, Tiling, Coalesced, Dll, Sizes;
    WholeLists(ts, i, n);
    WholeSize(mem1, ts, base, limit, i, n);
    NothingBefore(ts, i, true);
    var s1, a := After(ts, i, true), ts[i].addr;
    Splice(Before(ts, i, false), After(ts, i, false), a, 0);
    assert Addrs(ts, true) == [a] + s1;
    HeadRejoins(mem, mem1, mem', freeHead, freeHead', a, s1);
    SameSizes(mem1, mem', ts);
  }

  lemma SameSizes(mem: Memory, mem': Memory, ts: seq<Tile>)
    requires Sizes(mem, ts) && forall x :: x in mem ==> x in mem' && mem'[x].size == mem[x].size
    ensures Sizes(mem', ts)
  {
    assert forall i :: 0 <= i < |ts| ==> SizeAt(mem, ts[i]);
  }

  lemma HeadRejoins(mem: Memory, mem1: Memory, mem': Memory, head: nat, head': nat, a: nat, s1: seq<nat>)
    requires Dll(mem, head, [a] + s1) && s1 != []
    requires forall x :: x in [a] + s1 && x != a ==> x in mem && x in mem1 && mem1[x] == mem[x]
    requires HeadBack(mem1, mem', head', s1, a)
    ensures Dll(mem', head', [a] + s1)
  {
    var s := [a] + s1;
    Walk(mem, head, s);
    assert s[0] == a && s[1] == s1[0] && s1[0] in s1;
    forall x | x in s
      ensures x in mem' && x in mem && mem'[x].next == mem[x].next && mem'[x].prev == mem[x].prev
    {
      var i :| 0 <= i < |s| && s[i] == x;
      assert i > 1 ==> s[i] == s1[i - 1] && s1[i - 1] in s1 && s[i] != s[1];
      assert i > 0 ==> s[i] != s[0];
    }
    Elsewhere(mem, mem', head, s);
  }

  /** The block is its own predecessor, where another free block comes before it. */
  lemma TripAstray(mem': Memory, freeHead': nat, allocHead': nat, ts: seq<Tile>, i: nat)
    requires i < |ts| && ts[i].free && 0 < Pos(ts, i, true)
    requires ts[i].addr in mem' && mem'[ts[i].addr].prev == ts[i].addr
    ensures !Describes(mem', freeHead', allocHead', ts)
  {
    hide Addrs, Before, After;
    ListAt(ts, i, true);
    var s, k := Addrs(ts, true), Pos(ts, i, true);
    assert s[k] == ts[i].addr;
    if Describes(mem', freeHead', allocHead', ts) {
      Neighbours(mem', freeHead', s, k);
    }
  }

  /** The list that the search of free_memory walks. */
  function AllocatedWalk(ts: seq<Tile>, i: nat, n: nat, repaired: bool): seq<nat>
    requires i < |ts| && Fits(ts[i], n)
  {
    if Found(ts, i, repaired) then Addrs(Allocate(ts, i, n), false) else Addrs(ts, false)
  }

  /** free_memory can walk both lists that allocate_memory left, and finds the block exactly when it is reached. */
  lemma BeforeGive(mem: Memory, mem1: Memory, freeHead: nat, freeHead1: nat, allocHead1: nat,
                   ts: seq<Tile>, base: nat, limit: nat, i: nat, n: nat, repaired: bool)
    requires WellFormed(ts, base, limit) && i < |ts| && Fits(ts[i], n) && Dll(mem, freeHead, Addrs(ts, true))
    requires Taken(mem, mem1, freeHead, freeHead1, allocHead1, ts, i, n, repaired)
    ensures var t := AllocatedWalk(ts, i, n, repaired);
            && Chain(mem1, allocHead1, t)
            && (Found(ts, i, repaired) <==> exists k :: 0 <= k < |t| && t[k] == ts[i].addr)
            && forall k :: 0 <= k < |t| && t[k] == ts[i].addr ==>
                 && k == Pos(ts, i, false)
                 && Walkable(mem1, freeHead1, allocHead1, FreeWalk(ts, i, n, repaired), t, k, repaired,
                             WalkShape(ts, i, n, repaired))
  {
    hide Addrs, Before, After, Allocate, Tiling, Coalesced, Dll, Chain, Sizes, Passed, Walkable, AllocatesSoundly,
         FreeWalk, WalkShape;
    if Found(ts, i, repaired) {
      DescribesDll(mem1, freeHead1, allocHead1, Allocate(ts, i, n));
      AfterTake(mem, mem1, freeHead, freeHead1, allocHead1, ts, base, limit, i, n, repaired);
      Forward(mem1, allocHead1, Addrs(Allocate(ts, i, n), false));
    }
  }

  lemma DescribesDll(mem: Memory, freeHead: nat, allocHead: nat, ts: seq<Tile>)
    ensures Describes(mem, freeHead, allocHead, ts) ==> Dll(mem, freeHead, Addrs(ts, true))
  {
  }

  /** What the headers describe after the block was found and freed again. */
  lemma AfterGive(mem: Memory, mem1: Memory, mem': Memory, freeHead: nat, freeHead1: nat, freeHead': nat,
                  allocHead1: nat, allocHead': nat, ts: seq<Tile>, base: nat, limit: nat, i: nat, n: nat, m: nat,
                  repaired: bool)
    requires WellFormed(ts, base, limit) && i < |ts| && Fits(ts[i], n) && Dll(mem, freeHead, Addrs(ts, true))
    requires Found(ts, i, repaired) && Taken(mem, mem1, freeHead, freeHead1, allocHead1, ts, i, n, repaired)
    requires var s, t := FreeWalk(ts, i, n, repaired), Addrs(Allocate(ts, i, n), false);
             var k, a, shape := Pos(ts, i, false), ts[i].addr, WalkShape(ts, i, n, repaired);
             && k < |t|
             && (!shape.Astray? ==> Dll(mem', allocHead', RemoveAt(t, k)))
             && (shape.Right? ==> TakenIn(mem1, mem', freeHead', s, m, a, repaired))
             && (shape.Beheaded? ==> s != [] && HeadBack(mem1, mem', freeHead', s, a))
             && (shape.Astray? ==> a in mem' && mem'[a].prev == a)
    ensures Describes(mem', freeHead', allocHead', ts) == TripSound(ts, i, repaired)
  {
    hide Addrs, Before, After, Allocate, Tiling, Coalesced, Dll, Sizes, Passed, HeadBack, TakenIn, Describes, OnlyFree;
    if !GivenWhole(ts, i, n, repaired) {
      AfterTake(mem, mem1, freeHead, freeHead1, allocHead1, ts, base, limit, i, n, repaired);
      TripRight(mem1, mem', freeHead', allocHead', ts, base, limit, i, n, m, repaired);
    } else {
      FreeBelowOnList(ts, i);
      if Pos(ts, i, true) == 0 {
        TripBeheaded(mem, mem1, mem', freeHead, freeHead1, freeHead', allocHead', ts, base, limit, i, n);
      } else {
        TripAstray(mem', freeHead', allocHead', ts, i);
      }
    }
  }

  /**
   allocate_memory and then free_memory of what it returned. As written, free_memory does not find a block that was
   taken below all allocated ones. When it does find it, the headers describe the heap as it was exactly if no free
   block lies below, even if the lists were wrong in between.
   */
  method TakeAndGive(mem: Memory, freeHead: nat, allocHead: nat, n: nat, repaired: bool,
                     ghost ts: seq<Tile>, ghost base: nat, ghost limit: nat)
    returns (ptr: nat, rc: int, mem': Memory, freeHead': nat, allocHead': nat)
    requires WellFormed(ts, base, limit) && Describes(mem, freeHead, allocHead, ts)
    ensures ptr == NULL <==> FirstFit(ts, n) == |ts|
    ensures ptr == NULL ==> rc == 1 && mem' == mem && freeHead' == freeHead && allocHead' == allocHead
    ensures ptr != NULL ==>
            var i := FirstFit(ts, n);
            && ptr == ts[i].addr + HEADER
            && rc == (if Found(ts, i, repaired) then 0 else 1)
            && (rc == 0 ==> Describes(mem', freeHead', allocHead', ts) == TripSound(ts, i, repaired))
            && (rc == 1 ==> !Describes(mem', freeHead', allocHead', Allocate(ts, i, n)))
  {
    hide Addrs, Before, After, Allocate, Tiling, Coalesced, Dll, Chain, Sizes, FirstFit, TakenIn, HeadBack,
         Walkable, FreeWalk, WalkShape, AllocatedWalk, Taken, TripSound, AllocatesSoundly, Describes;
    ghost var i := FirstFit(ts, n);
    DescribesDll(mem, freeHead, allocHead, ts);
    var mem1, freeHead1, allocHead1;
    ptr, mem1, freeHead1, allocHead1 := Take(mem, freeHead, allocHead, n, repaired, ts, base, limit);
    if ptr == NULL {
      return NULL, 1, mem1, freeHead1, allocHead1;
    }
    ghost var s, shape := FreeWalk(ts, i, n, repaired), WalkShape(ts, i, n, repaired);
    ghost var t := AllocatedWalk(ts, i, n, repaired);
    BeforeGive(mem, mem1, freeHead, freeHead1, allocHead1, ts, base, limit, i, n, repaired);
    ghost var k, m;
    rc, mem', freeHead', allocHead', k, m := FreeBlock(mem1, freeHead1, allocHead1, ptr, repaired, s, t, shape);
    if rc == 0 {
      FoundWalk(ts, i, n, repaired);
      AfterGive(mem, mem1, mem', freeHead, freeHead1, freeHead', allocHead1, allocHead', ts, base, limit, i, n, m,
                repaired);
    } else {
      NotFound(ts, i, n, repaired);
    }
  }

  lemma FoundWalk(ts: seq<Tile>, i: nat, n: nat, repaired: bool)
    requires i < |ts| && Fits(ts[i], n) && Found(ts, i, repaired)
    ensures AllocatedWalk(ts, i, n, repaired) == Addrs(Allocate(ts, i, n), false)
  {
  }

  lemma NotFound(ts: seq<Tile>, i: nat, n: nat, repaired: bool)
    requires i < |ts| && !Found(ts, i, repaired)
    ensures !AllocatesSoundly(ts, i, n) && !repaired
  {
  }

  // ---------------------------------------------------------------- where the code as written goes wrong

  const BASE: nat := 0x1000
  const LIMIT: nat := 0x1100

  function Got(addr: nat, size: nat): Tile {
    Tile(addr, size, false)
  }

  function Left(addr: nat, size: nat): Tile {
    Tile(addr, size, true)
  }

  /** Three blocks allocated, the first freed again. */
  function HoleRow(): seq<Tile> {
    [Left(0x1000, 40), Got(0x1034, 20), Got(0x1054, 20), Left(0x1074, 128)]
  }

  /** The heap while the example is built: `n` of the three requests served. */
  function Stage(n: nat): seq<Tile> {
    if n == 0 then Whole(BASE, LIMIT)
    else if n == 1 then [Got(0x1000, 40), Left(0x1034, 192)]
    else if n == 2 then [Got(0x1000, 40), Got(0x1034, 20), Left(0x1054, 160)]
    else [Got(0x1000, 40), Got(0x1034, 20), Got(0x1054, 20), Left(0x1074, 128)]
  }

  lemma FirstStep()
    ensures FirstFit(Stage(0), 40) == 0 && AllocatesSoundly(Stage(0), 0, 40) && Serve(Stage(0), Alloc(40)) == Stage(1)
  {
  }

  lemma SecondStep()
    ensures FirstFit(Stage(1), 20) == 1 && AllocatesSoundly(Stage(1), 1, 20) && Serve(Stage(1), Alloc(20)) == Stage(2)
  {
    assert FirstFit(Stage(1)[1..], 20) == 0;
  }

  lemma ThirdStep()
    ensures FirstFit(Stage(2), 20) == 2 && AllocatesSoundly(Stage(2), 2, 20) && Serve(Stage(2), Alloc(20)) == Stage(3)
  {
    assert FirstFit(Stage(2)[1..][1..], 20) == 0 && FirstFit(Stage(2)[1..], 20) == 1;
  }

  lemma FourthStep()
    ensures Find(Stage(3), 0x100C) == 0 && ReleasesSoundly(Stage(3), 0) && Serve(Stage(3), Free(0x100C)) == HoleRow()
  {
  }

  /** Each request on the way there is served soundly by the code as written. */
  lemma HoleSteps()
    ensures FirstFit(Stage(0), 40) == 0 && AllocatesSoundly(Stage(0), 0, 40) && Serve(Stage(0), Alloc(40)) == Stage(1)
    ensures FirstFit(Stage(1), 20) == 1 && AllocatesSoundly(Stage(1), 1, 20) && Serve(Stage(1), Alloc(20)) == Stage(2)
    ensures FirstFit(Stage(2), 20) == 2 && AllocatesSoundly(Stage(2), 2, 20) && Serve(Stage(2), Alloc(20)) == Stage(3)
    ensures Find(Stage(3), 0x100C) == 0 && ReleasesSoundly(Stage(3), 0) && Serve(Stage(3), Free(0x100C)) == HoleRow()
  {
    FirstStep();
    SecondStep();
    ThirdStep();
    FourthStep();
  }

  lemma HoleReached()
    ensures ServeAll(Whole(BASE, LIMIT), [Alloc(40), Alloc(20), Alloc(20), Free(0x100C)]) == HoleRow()
  {
    HoleSteps();
    FirstStage();
    hide Serve, Stage;
    RunOne(Stage(3), [Free(0x100C)]);
    RunOne(Stage(2), [Alloc(20), Free(0x100C)]);
    RunOne(Stage(1), [Alloc(20), Alloc(20), Free(0x100C)]);
    RunOne(Stage(0), [Alloc(40), Alloc(20), Alloc(20), Free(0x100C)]);
  }

  lemma RunOne(ts: seq<Tile>, rs: seq<Request>)
    requires rs != []
    ensures ServeAll(ts, rs) == ServeAll(Serve(ts, rs[0]), rs[1..])
    ensures |rs| == 1 ==> ServeAll(ts, rs) == Serve(ts, rs[0])
  {
  }

  /**
   From that state each of the three missing updates bites: a split below `alloc_head`, a block given away
   whole while another is free, and a freed block above a free one that it does not touch.
   */
  lemma AsWrittenFails()
    ensures var ts := HoleRow();
            && |ts| == 4
            && FirstFit(ts, 8) == 0 && Splits(ts[0], 8) && !AllocatesSoundly(ts, 0, 8)
            && FirstFit(ts, 40) == 0 && !Splits(ts[0], 40) && !AllocatesSoundly(ts, 0, 40)
            && FirstFit(ts, 128) == 3 && 0 < 3 && !AllocatesSoundly(ts, 3, 128)
            && Find(ts, 0x1060) == 2 && !ReleasesSoundly(ts, 2)
  {
    var ts := HoleRow();
    assert FirstFit(ts[1..][1..][1..], 128) == 0 && FirstFit(ts[1..][1..], 128) == 1 && FirstFit(ts[1..], 128) == 2;
    assert Find(ts[1..][1..], 0x1060) == 0 && Find(ts[1..], 0x1060) == 1;
    assert ts[0].free && ts[3].free;
  }

  // ---------------------------------------------------------------- the heap object

  class Heap {
    /** Whether the missing link updates are made. */
    const repaired: bool
    var isInit: bool
    var mem: Memory
    var freeHead: nat
    var allocHead: nat
    ghost var tiles: seq<Tile>
    ghost var base: nat
    ghost var limit: nat

    ghost predicate Linked()
      reads this
    {
      Describes(mem, freeHead, allocHead, tiles)
    }

    ghost predicate Valid()
      reads this
    {
      if isInit then WellFormed(tiles, base, limit) && Linked()
      else freeHead == NULL && allocHead == NULL
    }

    constructor (repaired: bool)
      ensures Valid() && !isInit && this.repaired == repaired
    {
      this.repaired := repaired;
      isInit, mem, freeHead, allocHead := false, map[], NULL, NULL;
      tiles, base, limit := [], 0, 0;
    }

    /** initialize_heap; `block` is what kmalloc returned. A second call does nothing. */
    method InitializeHeap(block: nat, size: nat)
      requires Valid() && block != NULL && HEADER <= size
      modifies this
      ensures Valid() && isInit
      ensures if old(isInit) then tiles == old(tiles) && base == old(base) && limit == old(limit)
              else base == block && limit == block + size && tiles == Whole(block, block + size)
    {
      if !isInit {
        var mem' := map[block := Mcb(NULL, NULL, size - HEADER)];
        ghost var whole := Whole(block, block + size);
        WholeWellFormed(block, block + size);
        assert Addrs(whole, true) == [block] && Addrs(whole, false) == [];
        WholeDescribed(mem', block, whole);
        mem, freeHead := mem', block;
        isInit := true;
        tiles, base, limit := whole, block, block + size;
      }
    }

    /** allocate_memory */
    method AllocateMemory(n: nat) returns (ptr: nat)
      requires Valid()
      modifies this
      ensures isInit == old(isInit) && base == old(base) && limit == old(limit)
      ensures !isInit ==> ptr == NULL
      ensures ptr == NULL ==> Valid() && mem == old(mem) && freeHead == old(freeHead) && allocHead == old(allocHead)
      ensures isInit ==>
                && WellFormed(tiles, base, limit)
                && tiles == Serve(old(tiles), Alloc(n))
                && (ptr == NULL <==> FirstFit(old(tiles), n) == |old(tiles)|)
      ensures ptr != NULL ==>
                && ptr == old(tiles)[FirstFit(old(tiles), n)].addr + HEADER
                && Linked() == (repaired || AllocatesSoundly(old(tiles), FirstFit(old(tiles), n), n))
      ensures repaired ==> Valid()
    {
      hide WellFormed, Describes, Allocate;
      if !isInit {
        return NULL;
      }
      var mem', freeHead', allocHead';
      ptr, mem', freeHead', allocHead' := Take(mem, freeHead, allocHead, n, repaired, tiles, base, limit);
      if ptr != NULL {
        AllocateKeeps(tiles, base, limit, FirstFit(tiles, n), n);
      }
      mem, freeHead, allocHead := mem', freeHead', allocHead';
      tiles := Serve(tiles, Alloc(n));
    }

    /** free_memory */
    method FreeMemory(ptr: nat) returns (rc: int)
      requires Valid()
      modifies this
      ensures isInit == old(isInit) && base == old(base) && limit == old(limit)
      ensures rc == if isInit && Find(old(tiles), ptr) < |old(tiles)| then 0 else 1
      ensures rc == 1 ==> Valid() && mem == old(mem) && freeHead == old(freeHead) && allocHead == old(allocHead)
      ensures isInit ==> WellFormed(tiles, base, limit) && tiles == Serve(old(tiles), Free(ptr))
      ensures rc == 0 ==> Linked() == (repaired || ReleasesSoundly(old(tiles), Find(old(tiles), ptr)))
      ensures repaired ==> Valid()
    {
      hide WellFormed, Describes, Release;
      if !isInit {
        return 1;
      }
      var mem', freeHead', allocHead';
      rc, mem', freeHead', allocHead' := Give(mem, freeHead, allocHead, ptr, repaired, tiles, base, limit);
      if rc == 0 {
        ReleaseKeeps(tiles, base, limit, Find(tiles, ptr));
      }
      mem, freeHead, allocHead := mem', freeHead', allocHead';
      tiles := Serve(tiles, Free(ptr));
    }

    /**
     allocate_memory and then free_memory of what it returned, on any heap: the lists describe it as it was if and
     only if the repair is made, or some block lies below the one taken or there is no other, and no free block does.
     A block below all others is not found again.
     */
    method AllocateAndFree(n: nat) returns (ptr: nat, rc: int)
      requires Valid() && isInit
      modifies this
      ensures isInit && base == old(base) && limit == old(limit) && WellFormed(tiles, base, limit)
      ensures ptr == NULL <==> FirstFit(old(tiles), n) == |old(tiles)|
      ensures ptr == NULL ==> rc == 1 && Valid() && tiles == old(tiles)
      ensures ptr != NULL ==>
                var i := FirstFit(old(tiles), n);
                && ptr == old(tiles)[i].addr + HEADER
                && rc == (if repaired || 0 < i || |old(tiles)| == 1 then 0 else 1)
                && tiles == (if rc == 0 then old(tiles) else Serve(old(tiles), Alloc(n)))
                && (Linked() <==>
                      repaired || ((0 < i || |old(tiles)| == 1) && NoneFreeBelow(old(tiles), i)))
      ensures repaired ==> Valid()
    {
      hide WellFormed, Describes, Allocate;
      var mem', freeHead', allocHead';
      ptr, rc, mem', freeHead', allocHead' := TakeAndGive(mem, freeHead, allocHead, n, repaired, tiles, base, limit);
      if ptr != NULL && rc == 1 {
        AllocateKeeps(tiles, base, limit, FirstFit(tiles, n), n);
        tiles := Serve(tiles, Alloc(n));
      }
      mem, freeHead, allocHead := mem', freeHead', allocHead';
    }
  }

  /** The code as written, from power-on to the example heap; up to here its lists are right. */
  method BuildHole() returns (h: Heap)
    ensures fresh(h) && !h.repaired && h.isInit && h.Valid() && h.tiles == HoleRow()
  {
    HoleSteps();
    hide Stage, Serve, AllocatesSoundly, ReleasesSoundly, FirstFit, Find, WellFormed, Describes, HoleRow;
    assert Stage(0) == Whole(BASE, LIMIT) by {
      FirstStage();
    }
    h := new Heap(false);
    h.InitializeHeap(BASE, 0x100);
    var p := h.AllocateMemory(40);
    assert p == 0x100C by {
      FirstStage();
    }
    var q := h.AllocateMemory(20);
    var r := h.AllocateMemory(20);
    var rc := h.FreeMemory(p);
  }

  /** One request more, and the lists of the code as written no longer describe the heap. */
  method BreakLists(r: Request) returns (h: Heap)
    requires r == Alloc(8) || r == Alloc(40) || r == Alloc(128) || r == Free(0x1060)
    ensures fresh(h) && !h.repaired && h.isInit
    ensures h.tiles == Serve(HoleRow(), r) && WellFormed(h.tiles, h.base, h.limit)
    ensures !h.Linked()
  {
    AsWrittenFails();
    hide Serve, AllocatesSoundly, ReleasesSoundly, FirstFit, Find, WellFormed, Describes, HoleRow;
    h := BuildHole();
    if r.Alloc? {
      var p := h.AllocateMemory(r.n);
    } else {
      var rc := h.FreeMemory(0x1060);
    }
  }

  lemma FirstStage()
    ensures Stage(0) == Whole(BASE, LIMIT) && Stage(0)[0].addr == 0x1000 && |Stage(0)| == 1
  {
  }

  lemma WholeDescribed(mem: Memory, block: nat, ts: seq<Tile>)
    requires block != NULL && block in mem && |ts| == 1 && mem[block] == Mcb(NULL, NULL, ts[0].size)
    requires ts[0].addr == block && Addrs(ts, true) == [block] && Addrs(ts, false) == []
    ensures Describes(mem, block, NULL, ts)
  {
  }
}
