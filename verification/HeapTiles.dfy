/**
 The heap as a row of blocks that tile it from end to end, each one free or allocated
 (kernel/memory.c). A block is a header followed by its payload.
 */
module HeapTiles {

  /** sizeof(struct mcb): two pointers and a size of four bytes each. */
  const HEADER: nat := 12

  datatype Tile = Tile(addr: nat, size: nat, free: bool)

  function End(t: Tile): nat {
    t.addr + HEADER + t.size
  }

  /** No gap, no overlap: the blocks cover exactly [base, limit). */
  ghost predicate Tiling(ts: seq<Tile>, base: nat, limit: nat) {
    && ts != [] && 0 < base == ts[0].addr && End(ts[|ts| - 1]) == limit
    && forall i :: 0 <= i < |ts| - 1 ==> Touch(ts, i)
  }

  ghost predicate Touch(ts: seq<Tile>, i: nat)
    requires i + 1 < |ts|
  {
    End(ts[i]) == ts[i + 1].addr
  }

  /** Free neighbours have been merged. */
  ghost predicate Coalesced(ts: seq<Tile>) {
    forall i :: 0 <= i < |ts| - 1 ==> !BothFree(ts, i)
  }

  predicate BothFree(ts: seq<Tile>, i: nat)
    requires i + 1 < |ts|
  {
    ts[i].free && ts[i + 1].free
  }

  ghost predicate WellFormed(ts: seq<Tile>, base: nat, limit: nat) {
    Tiling(ts, base, limit) && Coalesced(ts)
  }

  /** The one free block made by initialize_heap. */
  function Whole(base: nat, limit: nat): seq<Tile>
    requires base + HEADER <= limit
  {
    [Tile(base, limit - base - HEADER, true)]
  }

  lemma WholeWellFormed(base: nat, limit: nat)
    requires 0 < base && base + HEADER <= limit
    ensures WellFormed(Whole(base, limit), base, limit)
  {
  }

  predicate Fits(t: Tile, n: nat) {
    t.free && n <= t.size
  }

  /** The lowest free block that holds `n` bytes, or the number of blocks when there is none. */
  function FirstFit(ts: seq<Tile>, n: nat): (i: nat)
    ensures i <= |ts|
    ensures i < |ts| ==> Fits(ts[i], n)
    ensures forall k :: 0 <= k < i ==> !Fits(ts[k], n)
  {
    if ts == [] || Fits(ts[0], n) then 0 else 1 + FirstFit(ts[1..], n)
  }

  /** What is left of the block is kept only if it can hold a header and one byte. */
  predicate Splits(t: Tile, n: nat) {
    n + HEADER < t.size
  }

  /** Block `i` gives `n` bytes away. */
  function Allocate(ts: seq<Tile>, i: nat, n: nat): seq<Tile>
    requires i < |ts| && Fits(ts[i], n)
  {
    var t := ts[i];
    if Splits(t, n) then
      ts[..i] + [Tile(t.addr, n, false), Tile(t.addr + HEADER + n, t.size - HEADER - n, true)] + ts[i + 1..]
    else ts[i := t.(free := false)]
  }

  predicate FreeBelow(ts: seq<Tile>, j: nat)
    requires j < |ts|
  {
    0 < j && ts[j - 1].free
  }

  predicate FreeAbove(ts: seq<Tile>, j: nat)
    requires j < |ts|
  {
    j + 1 < |ts| && ts[j + 1].free
  }

  /** Block `j` becomes free and swallows its free neighbours. */
  function Release(ts: seq<Tile>, j: nat): seq<Tile>
    requires j < |ts| && !ts[j].free
  {
    var size := ts[j].size + if FreeAbove(ts, j) then ts[j + 1].size + HEADER else 0;
    var above := if FreeAbove(ts, j) then ts[j + 2..] else ts[j + 1..];
    if FreeBelow(ts, j) then
      ts[..j - 1] + [Tile(ts[j - 1].addr, ts[j - 1].size + size + HEADER, true)] + above
    else ts[..j] + [Tile(ts[j].addr, size, true)] + above
  }

  /** The first of the blocks that merge when block `j` is freed, and the first block behind them. */
  function MergeStart(ts: seq<Tile>, j: nat): (lo: nat)
    requires j < |ts|
    ensures lo <= j
  {
    if FreeBelow(ts, j) then j - 1 else j
  }

  function MergeEnd(ts: seq<Tile>, j: nat): (hi: nat)
    requires j < |ts|
    ensures j < hi <= |ts|
  {
    if FreeAbove(ts, j) then j + 2 else j + 1
  }

  /** One free block takes the place of those that merge. */
  lemma MergedRow(ts: seq<Tile>, j: nat)
    requires j < |ts| && !ts[j].free
    ensures MergeStart(ts, j) < |Release(ts, j)| == |ts| + MergeStart(ts, j) + 1 - MergeEnd(ts, j)
    ensures var lo := MergeStart(ts, j); var merged := Release(ts, j)[lo];
            && merged.free && merged.addr == ts[lo].addr
            && Release(ts, j) == ts[..lo] + [merged] + ts[MergeEnd(ts, j)..]
  {
  }

  // ---------------------------------------------------------------- order

  lemma {:induction false} Ordered(ts: seq<Tile>, base: nat, limit: nat, i: nat, j: nat)
    requires Tiling(ts, base, limit) && i < j < |ts|
    ensures End(ts[i]) <= ts[j].addr
    decreases j - i
  {
    assert Touch(ts, i);
    if i + 1 < j {
      Ordered(ts, base, limit, i + 1, j);
    }
  }

  /** Blocks are in address order, so an address names one block at most. */
  lemma AddressOrder(ts: seq<Tile>, base: nat, limit: nat)
    requires Tiling(ts, base, limit)
    ensures forall i, j :: 0 <= i < j < |ts| ==> End(ts[i]) <= ts[j].addr
    ensures forall i :: 0 <= i < |ts| ==> 0 < ts[i].addr
  {
    forall i, j | 0 <= i < j < |ts| ensures End(ts[i]) <= ts[j].addr {
      Ordered(ts, base, limit, i, j);
    }
  }

  // ---------------------------------------------------------------- preservation

  lemma AllocateKeeps(ts: seq<Tile>, base: nat, limit: nat, i: nat, n: nat)
    requires WellFormed(ts, base, limit) && i < |ts| && Fits(ts[i], n)
    ensures WellFormed(Allocate(ts, i, n), base, limit)
  {
    var ts' := Allocate(ts, i, n);
    var shift := |ts'| - |ts|;
    forall k | 0 <= k < |ts'| - 1 ensures Touch(ts', k) && !BothFree(ts', k) {
      if k < i {
        assert Touch(ts, k) && !BothFree(ts, k);
      } else if k >= i + shift {
        assert Touch(ts, k - shift) && !BothFree(ts, k - shift);
      }
    }
  }

  lemma ReleaseKeeps(ts: seq<Tile>, base: nat, limit: nat, j: nat)
    requires WellFormed(ts, base, limit) && j < |ts| && !ts[j].free
    ensures WellFormed(Release(ts, j), base, limit)
  {
    var ts' := Release(ts, j);
    var lo := if FreeBelow(ts, j) then j - 1 else j;
    var shift := |ts| - |ts'|;
    if FreeBelow(ts, j) {
      assert Touch(ts, j - 1);
      assert j - 1 > 0 ==> !BothFree(ts, j - 2);
    }
    if FreeAbove(ts, j) {
      assert Touch(ts, j);
      assert j + 2 < |ts| ==> !BothFree(ts, j + 1);
    }
    forall k | 0 <= k < |ts'| - 1 ensures Touch(ts', k) && !BothFree(ts', k) {
      if k < lo {
        assert Touch(ts, k) && !BothFree(ts, k);
      } else {
        assert Touch(ts, k + shift) && !BothFree(ts, k + shift);
      }
    }
  }

  // ---------------------------------------------------------------- conservation

  /** Address and size of every allocated block. */
  function Held(ts: seq<Tile>): set<(nat, nat)> {
    set i | 0 <= i < |ts| && !ts[i].free :: (ts[i].addr, ts[i].size)
  }

  /** Bytes of payload that the request gets. */
  function Granted(t: Tile, n: nat): nat {
    if Splits(t, n) then n else t.size
  }

  lemma HeldSplit(a: seq<Tile>, b: seq<Tile>)
    ensures Held(a + b) == Held(a) + Held(b)
  {
    var ts := a + b;
    forall x | x in Held(a) + Held(b) ensures x in Held(ts) {
      if x in Held(a) {
        var i :| 0 <= i < |a| && !a[i].free && (a[i].addr, a[i].size) == x;
        assert ts[i] == a[i];
      } else {
        var i :| 0 <= i < |b| && !b[i].free && (b[i].addr, b[i].size) == x;
        assert ts[|a| + i] == b[i];
      }
    }
  }

  lemma HeldAround(ts: seq<Tile>, lo: nat, hi: nat, mid: seq<Tile>)
    requires lo <= hi <= |ts|
    ensures Held(ts) == Held(ts[..lo]) + Held(ts[lo..hi]) + Held(ts[hi..])
    ensures Held(ts[..lo] + mid + ts[hi..]) == Held(ts[..lo]) + Held(mid) + Held(ts[hi..])
  {
    assert ts == ts[..lo] + ts[lo..hi] + ts[hi..];
    HeldSplit(ts[..lo], ts[lo..hi]);
    HeldSplit(ts[..lo] + ts[lo..hi], ts[hi..]);
    HeldSplit(ts[..lo], mid);
    HeldSplit(ts[..lo] + mid, ts[hi..]);
  }

  /** A successful request adds one block of `n` to `n + HEADER` bytes and touches no other allocated block. */
  lemma AllocateHolds(ts: seq<Tile>, i: nat, n: nat)
    requires i < |ts| && Fits(ts[i], n)
    ensures Held(Allocate(ts, i, n)) == Held(ts) + {(ts[i].addr, Granted(ts[i], n))}
    ensures n <= Granted(ts[i], n) <= n + HEADER
  {
    var t := ts[i];
    var mid := if Splits(t, n) then [Tile(t.addr, n, false), Tile(t.addr + HEADER + n, t.size - HEADER - n, true)]
               else [t.(free := false)];
    HeldAround(ts, i, i + 1, mid);
    assert ts[i..i + 1] == [t];
    assert Allocate(ts, i, n) == ts[..i] + mid + ts[i + 1..];
    assert Held([t]) == {};
    assert mid[0] in mid;
    assert Held(mid) == {(t.addr, Granted(t, n))};
  }

  lemma HeldMember(ts: seq<Tile>, i: nat)
    requires i < |ts|
    ensures ts[i].free || (ts[i].addr, ts[i].size) in Held(ts)
  {
  }

  /** No other block lies at the address of block `j`. */
  lemma HeldOnce(ts: seq<Tile>, base: nat, limit: nat, j: nat, lo: nat, hi: nat)
    requires Tiling(ts, base, limit) && lo <= j < hi <= |ts|
    ensures (ts[j].addr, ts[j].size) !in Held(ts[..lo]) && (ts[j].addr, ts[j].size) !in Held(ts[hi..])
  {
    AddressOrder(ts, base, limit);
    forall k | 0 <= k < lo ensures ts[..lo][k].addr != ts[j].addr {
      assert ts[..lo][k] == ts[k];
    }
    forall k | 0 <= k < |ts| - hi ensures ts[hi..][k].addr != ts[j].addr {
      assert ts[hi..][k] == ts[hi + k];
    }
  }

  /** The lowest free block with room is taken. It is split exactly when a header and a byte are left behind. */
  lemma LowestFit(ts: seq<Tile>, n: nat)
    ensures var i := FirstFit(ts, n);
            && i <= |ts| && (forall k :: 0 <= k < i ==> !ts[k].free || ts[k].size < n)
            && (i < |ts| ==>
                  var t, ts' := ts[i], Allocate(ts, i, n);
                  && t.free && n <= t.size && !ts'[i].free && ts'[i].addr == t.addr
                  && (if n + 12 < t.size
                      then ts'[i].size == n && |ts'| == |ts| + 1 &&
                           ts'[i + 1] == Tile(t.addr + 12 + n, t.size - 12 - n, true)
                      else ts'[i].size == t.size && |ts'| == |ts|))
  {
    var i := FirstFit(ts, n);
    forall k | 0 <= k < i ensures !ts[k].free || ts[k].size < n {
      assert !Fits(ts[k], n);
    }
  }

  /** Freeing takes exactly one block away. */
  lemma ReleaseHolds(ts: seq<Tile>, base: nat, limit: nat, j: nat)
    requires Tiling(ts, base, limit) && j < |ts| && !ts[j].free
    ensures Held(Release(ts, j)) == Held(ts) - {(ts[j].addr, ts[j].size)}
  {
    hide Held, Release, Tiling;
    var lo, hi := MergeStart(ts, j), MergeEnd(ts, j);
    MergedRow(ts, j);
    HeldMerged(ts, j);
    HeldOnce(ts, base, limit, j, lo, hi);
    HeldAround(ts, lo, hi, [Release(ts, j)[lo]]);
  }

  /** Of the blocks that merge, only the freed one was held. */
  lemma HeldMerged(ts: seq<Tile>, j: nat)
    requires j < |ts| && !ts[j].free
    ensures Held(ts[MergeStart(ts, j)..MergeEnd(ts, j)]) == {(ts[j].addr, ts[j].size)}
    ensures Held([Release(ts, j)[MergeStart(ts, j)]]) == {}
  {
    MergedRow(ts, j);
    hide Release;
    HeldMember(ts[MergeStart(ts, j)..MergeEnd(ts, j)], j - MergeStart(ts, j));
  }

  // ---------------------------------------------------------------- round trips

  /** Freeing what was just allocated restores the heap, whether the block was split or given whole. */
  lemma FreeUndoesAllocate(ts: seq<Tile>, i: nat, n: nat)
    requires Coalesced(ts) && i < |ts| && Fits(ts[i], n)
    ensures !Allocate(ts, i, n)[i].free
    ensures Release(Allocate(ts, i, n), i) == ts
  {
    var ts' := Allocate(ts, i, n);
    assert i > 0 ==> !BothFree(ts, i - 1);
    assert i + 1 < |ts| ==> !BothFree(ts, i);
    if Splits(ts[i], n) {
      assert ts'[i + 2..] == ts[i + 1..];
    }
    assert Release(ts', i) == ts[..i] + [ts[i]] + ts[i + 1..];
  }

  /** A heap with nothing allocated is the one free block. */
  lemma NothingHeld(ts: seq<Tile>, base: nat, limit: nat)
    requires WellFormed(ts, base, limit) && Held(ts) == {}
    ensures base + HEADER <= limit && ts == Whole(base, limit)
  {
    forall i | 0 <= i < |ts| ensures ts[i].free {
      HeldMember(ts, i);
    }
    if |ts| > 1 {
      assert BothFree(ts, 0);
    }
  }

  // ---------------------------------------------------------------- whole runs

  datatype Request = Alloc(n: nat) | Free(ptr: int)

  /** The allocated block whose payload starts at `ptr`, or the number of blocks. */
  function Find(ts: seq<Tile>, ptr: int): (j: nat)
    ensures j <= |ts|
    ensures j < |ts| ==> !ts[j].free && ts[j].addr + HEADER == ptr
    ensures forall k :: 0 <= k < j ==> ts[k].free || ts[k].addr + HEADER != ptr
  {
    if ts == [] || (!ts[0].free && ts[0].addr + HEADER == ptr) then 0 else 1 + Find(ts[1..], ptr)
  }

  function Serve(ts: seq<Tile>, r: Request): seq<Tile> {
    match r
    case Alloc(n) => if FirstFit(ts, n) < |ts| then Allocate(ts, FirstFit(ts, n), n) else ts
    case Free(ptr) => if Find(ts, ptr) < |ts| then Release(ts, Find(ts, ptr)) else ts
  }

  function ServeAll(ts: seq<Tile>, rs: seq<Request>): seq<Tile>
    decreases |rs|
  {
    if rs == [] then ts else ServeAll(Serve(ts, rs[0]), rs[1..])
  }

  /** free_memory(allocate_memory(n)) puts every block back as it was. */
  lemma RoundTrip(ts: seq<Tile>, base: nat, limit: nat, n: nat)
    requires WellFormed(ts, base, limit) && FirstFit(ts, n) < |ts|
    ensures Serve(Serve(ts, Alloc(n)), Free(ts[FirstFit(ts, n)].addr + HEADER)) == ts
  {
    hide FirstFit, Find, Tiling, Coalesced, Release;
    var i := FirstFit(ts, n);
    AllocateKeeps(ts, base, limit, i, n);
    FreeUndoesAllocate(ts, i, n);
    FindAt(Allocate(ts, i, n), base, limit, i);
  }

  /** A payload address names its block. */
  lemma FindAt(ts: seq<Tile>, base: nat, limit: nat, i: nat)
    requires Tiling(ts, base, limit) && i < |ts| && !ts[i].free
    ensures Find(ts, ts[i].addr + HEADER) == i
  {
    AddressOrder(ts, base, limit);
  }

  /** Any sequence of requests keeps the heap tiled and free neighbours merged. */
  lemma {:induction false} RunKeeps(ts: seq<Tile>, base: nat, limit: nat, rs: seq<Request>)
    requires WellFormed(ts, base, limit)
    ensures WellFormed(ServeAll(ts, rs), base, limit)
    decreases |rs|
  {
    if rs != [] {
      match rs[0] {
        case Alloc(n) =>
          if FirstFit(ts, n) < |ts| {
            AllocateKeeps(ts, base, limit, FirstFit(ts, n), n);
          }
        case Free(ptr) =>
          if Find(ts, ptr) < |ts| {
            ReleaseKeeps(ts, base, limit, Find(ts, ptr));
          }
      }
      RunKeeps(Serve(ts, rs[0]), base, limit, rs[1..]);
    }
  }

  /** Freeing the allocated blocks, in any order and with any foreign pointers in between, empties the heap. */
  lemma {:induction false} FreeingAllEmpties(ts: seq<Tile>, base: nat, limit: nat, rs: seq<Request>)
    requires WellFormed(ts, base, limit)
    requires forall r :: r in rs ==> r.Free?
    requires forall x :: x in Held(ts) ==> Free(x.0 + HEADER) in rs
    ensures base + HEADER <= limit && ServeAll(ts, rs) == Whole(base, limit)
    decreases |rs|
  {
    if rs == [] {
      NothingHeld(ts, base, limit);
    } else {
      var ptr, ts' := rs[0].ptr, Serve(ts, rs[0]);
      var j := Find(ts, ptr);
      hide Tiling, Coalesced, Release, Find, Held;
      if j < |ts| {
        ReleaseKeeps(ts, base, limit, j);
        ReleaseHolds(ts, base, limit, j);
      }
      forall x | x in Held(ts') ensures Free(x.0 + HEADER) in rs[1..] {
        StillHeld(ts, base, limit, ptr, x);
        assert Free(x.0 + HEADER) in rs;
      }
      FreeingAllEmpties(ts', base, limit, rs[1..]);
    }
  }

  /** A block that is still held after a free does not start at the freed address. */
  lemma StillHeld(ts: seq<Tile>, base: nat, limit: nat, ptr: int, x: (nat, nat))
    requires Tiling(ts, base, limit) && x in Held(Serve(ts, Free(ptr)))
    ensures x in Held(ts) && x.0 + HEADER != ptr
  {
    hide Release, Find;
    var j := Find(ts, ptr);
    if j < |ts| {
      ReleaseHolds(ts, base, limit, j);
    }
    var i :| 0 <= i < |ts| && !ts[i].free && x == (ts[i].addr, ts[i].size);
    if x.0 + HEADER == ptr {
      FindAt(ts, base, limit, i);
    }
  }
}
