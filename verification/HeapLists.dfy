/**
 How the two block lists of kernel/memory.c read off the row of blocks: each is the addresses of the blocks
 of its kind, in order.
 */
module HeapLists {
  import opened Common
  import opened HeapTiles
  import opened HeapLinks

  function Addrs(ts: seq<Tile>, free: bool): seq<nat> {
    if ts == [] then []
    else (if ts[0].free == free then [ts[0].addr] else []) + Addrs(ts[1..], free)
  }

  /** The part of the list that lies below block `i`. */
  function Before(ts: seq<Tile>, i: nat, free: bool): seq<nat>
    requires i < |ts|
  {
    Addrs(ts[..i], free)
  }

  function After(ts: seq<Tile>, i: nat, free: bool): seq<nat>
    requires i < |ts|
  {
    Addrs(ts[i + 1..], free)
  }

  /** List position that block `i` has, or would have. */
  function Pos(ts: seq<Tile>, i: nat, free: bool): nat
    requires i < |ts|
  {
    |Before(ts, i, free)|
  }

  ghost predicate Sizes(mem: Memory, ts: seq<Tile>) {
    forall i :: 0 <= i < |ts| ==> SizeAt(mem, ts[i])
  }

  ghost predicate SizeAt(mem: Memory, t: Tile) {
    t.addr in mem && mem[t.addr].size == t.size
  }

  /** The headers in memory describe exactly the blocks `ts`. */
  ghost predicate Describes(mem: Memory, freeHead: nat, allocHead: nat, ts: seq<Tile>) {
    && Dll(mem, freeHead, Addrs(ts, true))
    && Dll(mem, allocHead, Addrs(ts, false))
    && Sizes(mem, ts)
  }

  lemma {:induction false} AddrsSplit(a: seq<Tile>, b: seq<Tile>, free: bool)
    ensures Addrs(a + b, free) == Addrs(a, free) + Addrs(b, free)
  {
    if a == [] {
      assert a + b == b;
    } else {
      AddrsSplit(a[1..], b, free);
      assert (a + b)[1..] == a[1..] + b;
      var head := if a[0].free == free then [a[0].addr] else [];
      assert Addrs(a + b, free) == head + Addrs(a[1..] + b, free);
      assert Addrs(a, free) == head + Addrs(a[1..], free);
      hide Addrs;
      Associate(head, Addrs(a[1..], free), Addrs(b, free));
    }
  }

  lemma AddrsThree(a: seq<Tile>, b: seq<Tile>, c: seq<Tile>, free: bool)
    ensures Addrs(a + b + c, free) == Addrs(a, free) + Addrs(b, free) + Addrs(c, free)
  {
    hide Addrs;
    AddrsSplit(a, b, free);
    AddrsSplit(a + b, c, free);
  }

  lemma AddrsOne(t: Tile, free: bool)
    ensures Addrs([t], free) == if t.free == free then [t.addr] else []
  {
  }

  lemma AddrsTwo(t: Tile, u: Tile, free: bool)
    ensures Addrs([t, u], free) == (if t.free == free then [t.addr] else []) + (if u.free == free then [u.addr] else [])
  {
    assert [t, u] == [t] + [u];
    AddrsSplit([t], [u], free);
  }

  lemma {:induction false} AddrsMember(ts: seq<Tile>, free: bool, x: nat)
    requires x in Addrs(ts, free)
    ensures exists j :: 0 <= j < |ts| && ts[j].free == free && ts[j].addr == x
  {
    if ts[0].free == free && ts[0].addr == x {
      assert ts[0].addr == x;
    } else {
      AddrsMember(ts[1..], free, x);
      var j :| 0 <= j < |ts[1..]| && ts[1..][j].free == free && ts[1..][j].addr == x;
      assert ts[j + 1].addr == x;
    }
  }

  /** The list splits at block `i`. */
  lemma ListAt(ts: seq<Tile>, i: nat, free: bool)
    requires i < |ts|
    ensures Addrs(ts, free)
         == Before(ts, i, free) + (if ts[i].free == free then [ts[i].addr] else []) + After(ts, i, free)
  {
    hide Addrs;
    assert ts == ts[..i] + [ts[i]] + ts[i + 1..];
    AddrsThree(ts[..i], [ts[i]], ts[i + 1..], free);
    AddrsOne(ts[i], free);
  }

  /** Lower blocks have lower addresses, higher blocks start beyond the end of block `i`. */
  lemma ListOrder(ts: seq<Tile>, base: nat, limit: nat, i: nat, free: bool)
    requires Tiling(ts, base, limit) && i < |ts|
    ensures forall x :: x in Before(ts, i, free) ==> x + HEADER <= ts[i].addr
    ensures forall x :: x in After(ts, i, free) ==> End(ts[i]) <= x
  {
    AddressOrder(ts, base, limit);
    forall x | x in Before(ts, i, free) ensures x + HEADER <= ts[i].addr {
      AddrsMember(ts[..i], free, x);
    }
    forall x | x in After(ts, i, free) ensures End(ts[i]) <= x {
      AddrsMember(ts[i + 1..], free, x);
    }
  }

  lemma AllocateLists(ts: seq<Tile>, i: nat, n: nat, free: bool)
    requires i < |ts| && Fits(ts[i], n)
    ensures Addrs(Allocate(ts, i, n), free)
         == Before(ts, i, free)
          + (if !free then [ts[i].addr] else if Splits(ts[i], n) then [ts[i].addr + HEADER + n] else [])
          + After(ts, i, free)
  {
    hide Addrs;
    var t := ts[i];
    if Splits(t, n) {
      var t', u := Tile(t.addr, n, false), Tile(t.addr + HEADER + n, t.size - HEADER - n, true);
      assert Allocate(ts, i, n) == ts[..i] + [t', u] + ts[i + 1..];
      AddrsThree(ts[..i], [t', u], ts[i + 1..], free);
      AddrsTwo(t', u, free);
    } else {
      assert Allocate(ts, i, n) == ts[..i] + [t.(free := false)] + ts[i + 1..];
      AddrsThree(ts[..i], [t.(free := false)], ts[i + 1..], free);
      AddrsOne(t.(free := false), free);
    }
  }

  lemma BelowLast(ts: seq<Tile>, j: nat, free: bool)
    requires j < |ts| && FreeBelow(ts, j)
    ensures Before(ts, j, free) == Addrs(ts[..j - 1], free) + if free then [ts[j - 1].addr] else []
  {
    hide Addrs;
    assert ts[..j] == ts[..j - 1] + [ts[j - 1]];
    AddrsSplit(ts[..j - 1], [ts[j - 1]], free);
    AddrsOne(ts[j - 1], free);
  }

  lemma AboveFirst(ts: seq<Tile>, j: nat, free: bool)
    requires j < |ts| && FreeAbove(ts, j)
    ensures After(ts, j, free) == (if free then [ts[j + 1].addr] else []) + Addrs(ts[j + 2..], free)
  {
    hide Addrs;
    assert ts[j + 1..] == [ts[j + 1]] + ts[j + 2..];
    AddrsSplit([ts[j + 1]], ts[j + 2..], free);
    AddrsOne(ts[j + 1], free);
  }

  /** The merged block takes the place of the freed one and its free neighbours. */
  lemma MergedLists(ts: seq<Tile>, j: nat, free: bool)
    requires j < |ts| && !ts[j].free
    ensures var lo, hi := MergeStart(ts, j), MergeEnd(ts, j);
            Addrs(Release(ts, j), free) ==
            Addrs(ts[..lo], free) + (if free then [ts[lo].addr] else []) + Addrs(ts[hi..], free)
  {
    hide Addrs, Release;
    MergedRow(ts, j);
    var lo, hi := MergeStart(ts, j), MergeEnd(ts, j);
    var merged := Release(ts, j)[lo];
    AddrsThree(ts[..lo], [merged], ts[hi..], free);
    AddrsOne(merged, free);
  }

  /** The free neighbours of a block are next to its place on the free list. */
  lemma FreeNeighbours(ts: seq<Tile>, j: nat)
    requires j < |ts|
    ensures FreeBelow(ts, j) ==>
              Before(ts, j, true) != [] && Before(ts, j, true)[Pos(ts, j, true) - 1] == ts[j - 1].addr
    ensures FreeAbove(ts, j) ==> After(ts, j, true) != [] && After(ts, j, true)[0] == ts[j + 1].addr
  {
    hide Addrs;
    if FreeBelow(ts, j) {
      BelowLast(ts, j, true);
    }
    if FreeAbove(ts, j) {
      AboveFirst(ts, j, true);
    }
  }

  lemma ReleaseLists(ts: seq<Tile>, j: nat, free: bool)
    requires j < |ts| && !ts[j].free
    ensures free && FreeAbove(ts, j) ==> After(ts, j, free) != []
    ensures Addrs(Release(ts, j), free)
         == Before(ts, j, free)
          + (if free && !FreeBelow(ts, j) then [ts[j].addr] else [])
          + (if free && FreeAbove(ts, j) then After(ts, j, free)[1..] else After(ts, j, free))
  {
    hide Addrs, Release;
    MergedLists(ts, j, free);
    if FreeBelow(ts, j) {
      BelowLast(ts, j, free);
    }
    if FreeAbove(ts, j) {
      AboveFirst(ts, j, free);
    }
  }

  // ---------------------------------------------------------------- list surgery

  lemma Splice(x: seq<nat>, y: seq<nat>, a: nat, b: nat)
    ensures InsertAt(x + y, |x|, a) == x + [a] + y
    ensures RemoveAt(x + [a] + y, |x|) == x + y
    ensures (x + [a] + y)[|x| := b] == x + [b] + y
  {
  }

  lemma JoinedSplit(x: seq<nat>, y: seq<nat>, a: nat, lower: bool, upper: bool)
    requires (lower ==> x != []) && (upper ==> y != [])
    ensures Joined(x + y, |x|, a, lower, upper)
         == x + (if lower then [] else [a]) + (if upper then y[1..] else y)
  {
  }

  /** A list position below which everything is at most `a`, and above which everything is more, is the only one. */
  lemma OneCut(s: seq<nat>, x: seq<nat>, y: seq<nat>, a: nat, m: nat)
    requires s == x + y && m <= |s|
    requires forall v :: v in x ==> v <= a
    requires forall v :: v in y ==> a < v
    requires forall i :: 0 <= i < m ==> s[i] <= a
    requires m < |s| ==> a < s[m]
    ensures m == |x|
  {
    assert forall i :: 0 <= i < |x| ==> s[i] == x[i] && x[i] in x;
    assert y != [] ==> s[|x|] == y[0] && y[0] in y;
  }

  // ---------------------------------------------------------------- what the walks find

  /** An address inside a block, past its header's first byte, is on neither list. */
  lemma Interior(ts: seq<Tile>, base: nat, limit: nat, i: nat, x: nat, free: bool)
    requires Tiling(ts, base, limit) && i < |ts| && ts[i].addr < x < End(ts[i])
    ensures x !in Addrs(ts, free)
  {
    hide Addrs;
    ListAt(ts, i, free);
    ListOrder(ts, base, limit, i, free);
  }

  /** The two lists share no block. */
  lemma Separate(ts: seq<Tile>, base: nat, limit: nat)
    requires Tiling(ts, base, limit)
    ensures forall x :: x in Addrs(ts, false) ==> x !in Addrs(ts, true)
  {
    hide Addrs;
    forall x | x in Addrs(ts, false) ensures x !in Addrs(ts, true) {
      AddrsMember(ts, false, x);
      var i :| 0 <= i < |ts| && !ts[i].free && ts[i].addr == x;
      ListAt(ts, i, true);
      ListOrder(ts, base, limit, i, true);
    }
  }

  /** The first list node with room is the first-fit block. */
  lemma FitPosition(mem: Memory, ts: seq<Tile>, n: nat, k: nat)
    requires Sizes(mem, ts) && k <= |Addrs(ts, true)|
    requires forall i :: 0 <= i < k ==> Addrs(ts, true)[i] in mem && mem[Addrs(ts, true)[i]].size < n
    requires k < |Addrs(ts, true)| ==> Addrs(ts, true)[k] in mem && n <= mem[Addrs(ts, true)[k]].size
    ensures k < |Addrs(ts, true)| <==> FirstFit(ts, n) < |ts|
    ensures k < |Addrs(ts, true)| ==>
              k == Pos(ts, FirstFit(ts, n), true) && Addrs(ts, true)[k] == ts[FirstFit(ts, n)].addr
  {
    hide Addrs, FirstFit;
    var s, i := Addrs(ts, true), FirstFit(ts, n);
    if i < |ts| {
      ListAt(ts, i, true);
      assert SizeAt(mem, ts[i]);
      assert s[Pos(ts, i, true)] == ts[i].addr;
      if k < Pos(ts, i, true) {
        AddrsMember(ts[..i], true, s[k]);
      }
    } else if k < |s| {
      AddrsMember(ts, true, s[k]);
    }
  }

  /** The walk by address stops where the block belongs in the other list. */
  lemma CutPosition(ts: seq<Tile>, base: nat, limit: nat, i: nat, s: seq<nat>, m: nat)
    requires Tiling(ts, base, limit) && i < |ts| && s == Addrs(ts, !ts[i].free) && m <= |s|
    requires forall j :: 0 <= j < m ==> s[j] <= ts[i].addr
    requires m < |s| ==> ts[i].addr < s[m]
    ensures m == Pos(ts, i, !ts[i].free)
  {
    hide Addrs, Before, After, Tiling;
    var free := !ts[i].free;
    ListAt(ts, i, free);
    ListOrder(ts, base, limit, i, free);
    var x, y := Before(ts, i, free), After(ts, i, free);
    assert s == x + y;
    OneCut(s, x, y, ts[i].addr, m);
  }

  /** The search for a header finds the block whose payload starts at the pointer. */
  lemma HeaderPosition(ts: seq<Tile>, ptr: int, found: nat, k: nat)
    requires Distinct(Addrs(ts, false)) && 0 !in Addrs(ts, false)
    requires k <= |Addrs(ts, false)| && found == At(Addrs(ts, false), k)
    requires found != 0 ==> found == ptr - HEADER
    requires found == 0 ==> forall i :: 0 <= i < |Addrs(ts, false)| ==> Addrs(ts, false)[i] != ptr - HEADER
    ensures found != 0 <==> Find(ts, ptr) < |ts|
    ensures found != 0 ==> k == Pos(ts, Find(ts, ptr), false) && k < |Addrs(ts, false)|
  {
    hide Addrs, Find;
    var t, j := Addrs(ts, false), Find(ts, ptr);
    if j < |ts| {
      ListAt(ts, j, false);
      assert t[Pos(ts, j, false)] == ptr - HEADER;
    } else if found != 0 {
      assert found in t;
      AddrsMember(ts, false, found);
      assert false;
    }
  }

  // ---------------------------------------------------------------- both operations on lists

  /** Allocation moves or removes one node of the free list and adds one to the allocated list. */
  lemma AllocateOnLists(ts: seq<Tile>, i: nat, n: nat)
    requires i < |ts| && Fits(ts[i], n)
    ensures Pos(ts, i, true) < |Addrs(ts, true)| && Addrs(ts, true)[Pos(ts, i, true)] == ts[i].addr
    ensures Addrs(Allocate(ts, i, n), true)
         == if Splits(ts[i], n) then Addrs(ts, true)[Pos(ts, i, true) := ts[i].addr + HEADER + n]
            else RemoveAt(Addrs(ts, true), Pos(ts, i, true))
    ensures Pos(ts, i, false) <= |Addrs(ts, false)|
    ensures Addrs(Allocate(ts, i, n), false) == InsertAt(Addrs(ts, false), Pos(ts, i, false), ts[i].addr)
  {
    hide Addrs, Before, After, Allocate, InsertAt, RemoveAt;
    ListAt(ts, i, true);
    ListAt(ts, i, false);
    AllocateLists(ts, i, n, true);
    AllocateLists(ts, i, n, false);
    Splice(Before(ts, i, true), After(ts, i, true), ts[i].addr, ts[i].addr + HEADER + n);
    Splice(Before(ts, i, false), After(ts, i, false), ts[i].addr, 0);
  }

  /** Freeing removes one node of the allocated list and joins it to the free list. */
  lemma ReleaseOnLists(ts: seq<Tile>, j: nat)
    requires j < |ts| && !ts[j].free
    ensures Pos(ts, j, false) < |Addrs(ts, false)| && Addrs(ts, false)[Pos(ts, j, false)] == ts[j].addr
    ensures Addrs(Release(ts, j), false) == RemoveAt(Addrs(ts, false), Pos(ts, j, false))
    ensures Pos(ts, j, true) <= |Addrs(ts, true)|
    ensures FreeBelow(ts, j) ==> Pos(ts, j, true) > 0 && Addrs(ts, true)[Pos(ts, j, true) - 1] == ts[j - 1].addr
    ensures FreeAbove(ts, j) ==>
              Pos(ts, j, true) < |Addrs(ts, true)| && Addrs(ts, true)[Pos(ts, j, true)] == ts[j + 1].addr
    ensures Addrs(Release(ts, j), true)
         == Joined(Addrs(ts, true), Pos(ts, j, true), ts[j].addr, FreeBelow(ts, j), FreeAbove(ts, j))
  {
    hide Addrs, Before, After, Release, InsertAt, RemoveAt, Joined;
    ListAt(ts, j, true);
    assert Addrs(ts, true) == Before(ts, j, true) + After(ts, j, true);
    ListAt(ts, j, false);
    FreeNeighbours(ts, j);
    ReleaseLists(ts, j, true);
    ReleaseLists(ts, j, false);
    Splice(Before(ts, j, false), After(ts, j, false), ts[j].addr, 0);
    JoinedSplit(Before(ts, j, true), After(ts, j, true), ts[j].addr, FreeBelow(ts, j), FreeAbove(ts, j));
  }
}
