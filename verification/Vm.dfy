/**
 Boot-time memory: the physical allocator, the frame bitmap, the page tables and the loops of vm_init
 (kernel/core.c). Addresses and sizes are those of the source; a panic is a result.
 */
module Vm {
  import opened Common

  const KHEAP_BASE: nat := 0xD000000
  const KHEAP_SIZE: nat := 0x10000
  const PAGE_SIZE: nat := 0x1000
  const NFRAMES: nat := 16384
  const FRAME_BIT: nat := 32
  const NWORDS: nat := 512
  const ENTRIES: nat := 1024
  const SIZEOF_PAGE_TABLE: nat := 0x1000
  const SIZEOF_PAGE_DIR: nat := 0x2000
  const NO_FRAME: nat := 0xFFFFFFFF
  const HEAP_PAGE: nat := 53248
  const HEAP_PAGES: nat := 16

  // ---------------------------------------------------------------- the frame bitmap

  /** A 32-bit word of the bitmap, as the set of its one bits. */
  type Word = w: set<nat> | w <= FULL

  const FULL: set<nat> := set j: nat | j < FRAME_BIT

  /** Frame `f` is marked in the bitmap. */
  predicate Used(frames: seq<Word>, f: nat)
    requires |frames| == NWORDS
  {
    f < NFRAMES && f % FRAME_BIT in frames[f / FRAME_BIT]
  }

  /** find_free: the lowest unmarked frame. */
  method FindFree(frames: array<Word>) returns (frame: nat)
    requires frames.Length == NWORDS
    ensures frame == NO_FRAME || (frame < NFRAMES && !Used(frames[..], frame))
    ensures forall f :: 0 <= f < NFRAMES && f < frame ==> Used(frames[..], f)
  {
    for i := 0 to NWORDS
      invariant forall f :: 0 <= f < i * FRAME_BIT ==> Used(frames[..], f)
    {
      if frames[i] != FULL {
        for j := 0 to FRAME_BIT
          invariant forall k :: 0 <= k < j ==> k in frames[i]
        {
          if j !in frames[i] {
            return i * FRAME_BIT + j;
          }
        }
      }
    }
    return NO_FRAME;
  }

  /** set_bit */
  method SetBit(frames: array<Word>, addr: nat)
    requires frames.Length == NWORDS && addr / PAGE_SIZE < NFRAMES
    modifies frames
    ensures forall f :: 0 <= f < NFRAMES ==>
              Used(frames[..], f) == (old(Used(frames[..], f)) || f == addr / PAGE_SIZE)
  {
    var frame := addr / PAGE_SIZE;
    var index, offset := frame / FRAME_BIT, frame % FRAME_BIT;
    frames[index] := frames[index] + {offset};
  }

  // ---------------------------------------------------------------- page tables

  datatype PageEntry = PageEntry(present: bool, writeable: bool, usermode: bool, frame: nat)

  const ABSENT: PageEntry := PageEntry(false, false, false, 0)

  function Kernel(frame: nat): PageEntry {
    PageEntry(true, true, false, frame)
  }

  type Tables = map<nat, seq<PageEntry>>

  function ZeroTable(): seq<PageEntry> {
    seq(ENTRIES, _ => ABSENT)
  }

  predicate HasPage(tables: Tables, k: nat) {
    k / ENTRIES in tables && |tables[k / ENTRIES]| == ENTRIES
  }

  /** The entry of page `k`. */
  function Entry(tables: Tables, k: nat): PageEntry
    requires HasPage(tables, k)
  {
    tables[k / ENTRIES][k % ENTRIES]
  }

  function SetEntry(tables: Tables, k: nat, e: PageEntry): Tables
    requires HasPage(tables, k)
  {
    tables[k / ENTRIES := tables[k / ENTRIES][k % ENTRIES := e]]
  }

  lemma SetEntrySets(tables: Tables, k: nat, e: PageEntry)
    requires HasPage(tables, k)
    ensures SetEntry(tables, k, e).Keys == tables.Keys
    ensures forall p :: HasPage(SetEntry(tables, k, e), p) == HasPage(tables, p)
    ensures forall p :: HasPage(tables, p) ==>
              Entry(SetEntry(tables, k, e), p) == if p == k then e else Entry(tables, p)
  {
  }

  /** What vm_init has mapped after `n` pages of the identity loop and `h` pages of the heap loop. */
  function Expected(k: nat, n: nat, h: nat): PageEntry {
    if k < n then Kernel(k)
    else if HEAP_PAGE <= k < HEAP_PAGE + h then Kernel(n + (k - HEAP_PAGE))
    else ABSENT
  }

  /** Pages, frames and tables agree: page k has frame k, heap pages have the frames after those, all else is absent. */
  ghost predicate Layout(tables: Tables, frames: seq<Word>, n: nat, h: nat) {
    && |frames| == NWORDS && n + h <= NFRAMES && h <= HEAP_PAGES
    && (forall t :: t in tables ==> |tables[t]| == ENTRIES)
    && (forall k :: 0 <= k < n || HEAP_PAGE <= k < HEAP_PAGE + h ==> HasPage(tables, k))
    && (forall k :: HasPage(tables, k) ==> Entry(tables, k) == Expected(k, n, h))
    && (forall f :: 0 <= f < NFRAMES ==> Used(frames, f) == (f < n + h))
  }

  lemma AddTable(tables: Tables, frames: seq<Word>, n: nat, h: nat, t: nat)
    requires Layout(tables, frames, n, h) && t !in tables
    ensures Layout(tables[t := ZeroTable()], frames, n, h)
  {
    var tables' := tables[t := ZeroTable()];
    forall k: nat | HasPage(tables', k) ensures Entry(tables', k) == Expected(k, n, h) {
      if k / ENTRIES == t {
        assert Entry(tables', k) == ABSENT;
        assert !HasPage(tables, k);
      } else {
        assert HasPage(tables, k) && Entry(tables', k) == Entry(tables, k);
      }
    }
    forall k: nat | 0 <= k < n || HEAP_PAGE <= k < HEAP_PAGE + h ensures HasPage(tables', k) {
      assert HasPage(tables, k);
    }
  }

  /** Page `k` is the next one of the identity loop or of the heap loop. */
  predicate Follows(k: nat, n: nat, h: nat, n': nat, h': nat) {
    || (h == 0 && k == n && n' == n + 1 && h' == 0)
    || (k == HEAP_PAGE + h && n' == n && h' == h + 1 <= HEAP_PAGES)
  }

  /** The next page of either loop gets the next frame. */
  lemma MapNext(tables: Tables, frames: seq<Word>, frames': seq<Word>, n: nat, h: nat, n': nat, h': nat, k: nat)
    requires Layout(tables, frames, n, h) && HasPage(tables, k) && n + h < NFRAMES && |frames'| == NWORDS
    requires Follows(k, n, h, n', h')
    requires forall f :: 0 <= f < NFRAMES ==> Used(frames', f) == (Used(frames, f) || f == n + h)
    ensures Layout(SetEntry(tables, k, Kernel(n + h)), frames', n', h')
  {
    SetEntrySets(tables, k, Kernel(n + h));
  }

  // ---------------------------------------------------------------- the page directory

  /** Address of the directory, its tables, and where each table lies (`tables` and `tables_phys` of the source). */
  datatype PageDir = PageDir(at: nat, tables: Tables, tableAt: map<nat, nat>, tablesPhys: map<nat, nat>)

  /** `| 0x7` */
  function WithFlags(at: nat): nat {
    at / 8 * 8 + 7
  }

  lemma FlagsOfAligned(at: nat)
    requires at % PAGE_SIZE == 0
    ensures WithFlags(at) == at + 7
  {
    assert at == PAGE_SIZE * (at / PAGE_SIZE);
    assert at / 8 == 512 * (at / PAGE_SIZE);
  }

  function WithTable(dir: PageDir, t: nat, at: nat): PageDir {
    PageDir(dir.at, dir.tables[t := ZeroTable()], dir.tableAt[t := at], dir.tablesPhys[t := WithFlags(at)])
  }

  ghost predicate NoOverlap(tableAt: map<nat, nat>, t: nat, u: nat)
    requires t in tableAt && u in tableAt
  {
    tableAt[t] + SIZEOF_PAGE_TABLE <= tableAt[u] || tableAt[u] + SIZEOF_PAGE_TABLE <= tableAt[t]
  }

  /**
   The directory and its tables lie in allocated memory, on page boundaries, without overlap, and the
   directory entries given to the processor point at the tables.
   */
  ghost predicate Placed(dir: PageDir, end: nat, physAlloc: nat) {
    && end <= dir.at && dir.at % PAGE_SIZE == 0 && dir.at + SIZEOF_PAGE_DIR <= physAlloc
    && dir.tableAt.Keys == dir.tables.Keys == dir.tablesPhys.Keys
    && (forall t :: t in dir.tableAt ==>
          && dir.tableAt[t] % PAGE_SIZE == 0 && dir.tablesPhys[t] == dir.tableAt[t] + 7
          && dir.at + SIZEOF_PAGE_DIR <= dir.tableAt[t] && dir.tableAt[t] + SIZEOF_PAGE_TABLE <= physAlloc)
    && (forall t, u {:trigger NoOverlap(dir.tableAt, t, u)} ::
          t in dir.tableAt && u in dir.tableAt && t != u ==> NoOverlap(dir.tableAt, t, u))
  }

  lemma PlaceTable(dir: PageDir, end: nat, physAlloc: nat, t: nat, at: nat)
    requires Placed(dir, end, physAlloc) && t !in dir.tables && physAlloc <= at && at % PAGE_SIZE == 0
    ensures Placed(WithTable(dir, t, at), end, at + SIZEOF_PAGE_TABLE)
  {
    FlagsOfAligned(at);
    hide WithFlags;
    var tableAt := dir.tableAt[t := at];
    forall u, v | u in tableAt && v in tableAt && u != v ensures NoOverlap(tableAt, u, v) {
      assert u != t && v != t ==> NoOverlap(dir.tableAt, u, v);
    }
  }

  /** The table of the kernel heap's pages. */
  const HEAP_TABLE: nat := 52

  /** The tables are the one for the kernel heap and the first `c`. */
  ghost predicate FirstTables(dir: PageDir, c: nat) {
    forall t :: t in dir.tables <==> t == HEAP_TABLE || 0 <= t < c
  }

  /** Tables needed for `n` pages. */
  function TablesFor(n: nat): nat {
    (n + ENTRIES - 1) / ENTRIES
  }

  /** A table is missing for page `n` exactly when the first `n` pages fill their tables. */
  lemma TableOf(dir: PageDir, n: nat)
    requires n <= NFRAMES && FirstTables(dir, TablesFor(n))
    ensures n / ENTRIES !in dir.tables ==>
              n / ENTRIES == TablesFor(n) < HEAP_TABLE && TablesFor(n + 1) == TablesFor(n) + 1
    ensures n / ENTRIES in dir.tables ==> TablesFor(n + 1) == TablesFor(n)
    ensures n * PAGE_SIZE / PAGE_SIZE == n && n < ENTRIES * ENTRIES
  {
  }

  /** What an aligned allocation skips to: the next page boundary, even from a boundary. */
  function Aligned(p: nat): nat {
    if p / PAGE_SIZE != 0 then p / PAGE_SIZE * PAGE_SIZE + PAGE_SIZE else p
  }

  lemma AlignedFacts(p: nat)
    requires PAGE_SIZE <= p
    ensures p < Aligned(p) <= p + PAGE_SIZE && Aligned(p) % PAGE_SIZE == 0
    ensures Aligned(p) == (p / PAGE_SIZE + 1) * PAGE_SIZE
    ensures p % PAGE_SIZE == 0 ==> Aligned(p) == p + PAGE_SIZE
  {
    assert p == p / PAGE_SIZE * PAGE_SIZE + p % PAGE_SIZE;
  }

  /** Where physical allocation stands once the directory, the kernel heap's table and `c` more tables are made. */
  function Taken(end: nat, c: nat): nat {
    (end / PAGE_SIZE + 5) * PAGE_SIZE + 2 * PAGE_SIZE * c
  }

  /** State of vm_init after `n` identity pages and `h` heap pages, with the first `c` tables made. */
  ghost predicate Booting(dir: PageDir, frames: seq<Word>, end: nat, physAlloc: nat, n: nat, h: nat, c: nat) {
    && Layout(dir.tables, frames, n, h)
    && Placed(dir, end, physAlloc)
    && FirstTables(dir, c)
    && physAlloc == Taken(end, c)
  }

  lemma TakenFacts(end: nat, c: nat)
    ensures Taken(end, c) % PAGE_SIZE == 0 && Taken(end, c) >= PAGE_SIZE
    ensures Taken(end, c + 1) == Taken(end, c) + 2 * PAGE_SIZE
  {
    assert Taken(end, c) == (end / PAGE_SIZE + 5 + 2 * c) * PAGE_SIZE;
  }

  lemma TableMade(dir: PageDir, frames: seq<Word>, end: nat, physAlloc: nat, n: nat, c: nat, at: nat)
    requires Booting(dir, frames, end, physAlloc, n, 0, c) && c < HEAP_TABLE && at == Aligned(physAlloc)
    ensures Booting(WithTable(dir, c, at), frames, end, at + SIZEOF_PAGE_TABLE, n, 0, c + 1)
  {
    hide Layout, Placed, Aligned;
    TakenFacts(end, c);
    AlignedFacts(physAlloc);
    AddTable(dir.tables, frames, n, 0, c);
    PlaceTable(dir, end, physAlloc, c, at);
  }

  lemma PageMapped(dir: PageDir, frames: seq<Word>, frames': seq<Word>, end: nat, physAlloc: nat,
                   n: nat, h: nat, n': nat, h': nat, c: nat, k: nat)
    requires Booting(dir, frames, end, physAlloc, n, h, c)
    requires HasPage(dir.tables, k) && n + h < NFRAMES && |frames'| == NWORDS
    requires Follows(k, n, h, n', h')
    requires forall f :: 0 <= f < NFRAMES ==> Used(frames', f) == (Used(frames, f) || f == n + h)
    ensures Booting(dir.(tables := SetEntry(dir.tables, k, Kernel(n + h))), frames', end, physAlloc, n', h', c)
  {
    hide Layout, Placed, FirstTables, SetEntry;
    MapNext(dir.tables, frames, frames', n, h, n', h', k);
    SetEntrySets(dir.tables, k, Kernel(n + h));
    SameTables(dir, SetEntry(dir.tables, k, Kernel(n + h)), end, physAlloc, c);
  }

  lemma SameTables(dir: PageDir, tables: Tables, end: nat, physAlloc: nat, c: nat)
    requires Placed(dir, end, physAlloc) && FirstTables(dir, c) && tables.Keys == dir.tables.Keys
    ensures Placed(dir.(tables := tables), end, physAlloc) && FirstTables(dir.(tables := tables), c)
  {
  }

  /** A page that has a table and is the next of either loop is absent, and every frame below `n + h` is taken. */
  lemma NextPage(dir: PageDir, frames: seq<Word>, end: nat, physAlloc: nat, n: nat, h: nat, c: nat, k: nat)
    requires Booting(dir, frames, end, physAlloc, n, h, c) && k / ENTRIES in dir.tables
    requires (h == 0 && k == n) || (k == HEAP_PAGE + h && h < HEAP_PAGES)
    ensures HasPage(dir.tables, k) && Entry(dir.tables, k) == ABSENT && |frames| == NWORDS
    ensures forall f :: 0 <= f < NFRAMES ==> Used(frames, f) == (f < n + h)
    ensures n + h <= NFRAMES
  {
  }

  ghost predicate AllUsed(frames: seq<Word>) {
    |frames| == NWORDS && forall f :: 0 <= f < NFRAMES ==> Used(frames, f)
  }

  /** With exactly the frames below `m` marked, the lowest unmarked one is `m`. */
  lemma LowestFree(frames: seq<Word>, m: nat, frame: nat)
    requires |frames| == NWORDS && m <= NFRAMES && forall f :: 0 <= f < NFRAMES ==> Used(frames, f) == (f < m)
    ensures AllUsed(frames) == (m == NFRAMES)
    ensures frame < NFRAMES && !Used(frames, frame) && (forall f :: 0 <= f < frame ==> Used(frames, f)) ==> frame == m
  {
    assert m < NFRAMES ==> !Used(frames, m);
  }

  /** The bound of the identity loop, when it comes to page `n`, lies beyond that page. */
  predicate BelowBound(end: nat, n: nat) {
    n * PAGE_SIZE < Taken(end, TablesFor(n)) + KHEAP_SIZE
  }

  /** The lowest end of a kernel image for which the frames do not suffice. */
  const KERNEL_LIMIT: nat := 0x3FBC000

  /** The bound of the identity loop lies on a page boundary, so a page below it is below by a page at least. */
  lemma BoundGrows(end: nat, n: nat, physAlloc: nat)
    requires physAlloc == Taken(end, TablesFor(n)) && n * PAGE_SIZE < physAlloc + KHEAP_SIZE
    ensures BelowBound(end, n) && (n + 1) * PAGE_SIZE <= physAlloc + KHEAP_SIZE
    ensures Taken(end, TablesFor(n)) <= Taken(end, TablesFor(n + 1))
    ensures Taken(end, TablesFor(n + 1)) - 2 * PAGE_SIZE * TablesFor(n + 1) ==
            Taken(end, TablesFor(n)) - 2 * PAGE_SIZE * TablesFor(n)
  {
    hide Taken, TablesFor;
    TablesGrow(n);
    TakenPages(end, TablesFor(n));
    TakenPages(end, TablesFor(n + 1));
  }

  lemma TablesGrow(n: nat)
    ensures TablesFor(n) <= TablesFor(n + 1)
    ensures n < NFRAMES ==> TablesFor(n + 1) <= ENTRIES
  {
  }

  lemma TakenPages(end: nat, c: nat)
    ensures Taken(end, c) == (end / PAGE_SIZE + 5 + 2 * c) * PAGE_SIZE
  {
  }

  /** How far the identity loop gets decides whether the frames suffice, and both are decided by the image's end. */
  lemma PagesNeeded(end: nat, n: nat)
    requires n <= NFRAMES
    ensures n == NFRAMES && n * PAGE_SIZE < Taken(end, TablesFor(n)) + KHEAP_SIZE ==> KERNEL_LIMIT <= end
    ensures n * PAGE_SIZE == Taken(end, TablesFor(n)) + KHEAP_SIZE ==>
              (NFRAMES < n + HEAP_PAGES <==> KERNEL_LIMIT <= end)
    ensures Taken(end, TablesFor(n + 1)) <= end + 39 * PAGE_SIZE
    ensures Taken(end, TablesFor(n)) % PAGE_SIZE == 0 && Taken(end, TablesFor(n)) <= end + 39 * PAGE_SIZE
  {
    var e := end / PAGE_SIZE;
    TakenPages(end, TablesFor(n));
    assert KERNEL_LIMIT <= end <==> 16316 <= e;
  }

  class Machine {
    /** End of the kernel image. */
    const end: nat
    const frames: array<Word>
    var physAlloc: nat
    var kdir: PageDir

    /** kmalloc before paging: memory is taken after the kernel image. */
    method PhysicalAlloc(size: nat, align: bool) returns (addr: nat)
      modifies `physAlloc
      ensures physAlloc == addr + size && addr == if align then Aligned(old(physAlloc)) else old(physAlloc)
      ensures align && 0x1000 <= old(physAlloc) ==>
                addr % 0x1000 == 0 && old(physAlloc) < addr <= old(physAlloc) + 0x1000
      ensures align && old(physAlloc) < 0x1000 ==> addr == old(physAlloc)
    {
      if align && physAlloc / PAGE_SIZE != 0 {
        physAlloc := physAlloc / PAGE_SIZE * PAGE_SIZE;
        physAlloc := physAlloc + PAGE_SIZE;
      }
      addr := physAlloc;
      physAlloc := physAlloc + size;
    }

    /** get_page with `make_table`: the page whose entry it points to. */
    method GetPage(addr: nat) returns (page: nat, ghost at: nat)
      requires addr / PAGE_SIZE < ENTRIES * ENTRIES
      modifies `physAlloc, `kdir
      ensures page == addr / PAGE_SIZE
      ensures page / ENTRIES in old(kdir.tables) ==> kdir == old(kdir) && physAlloc == old(physAlloc)
      ensures page / ENTRIES !in old(kdir.tables) ==>
                && kdir == WithTable(old(kdir), page / ENTRIES, at) && physAlloc == at + SIZEOF_PAGE_TABLE
                && at == Aligned(old(physAlloc))
    {
      page := addr / PAGE_SIZE;
      var index := page / ENTRIES;
      at := 0;
      if index !in kdir.tables {
        var table := PhysicalAlloc(SIZEOF_PAGE_TABLE, true);
        at := table;
        kdir := WithTable(kdir, index, table);
      }
    }

    /** new_frame */
    method NewFrame(k: nat) returns (panic: bool, ghost frame: nat)
      requires frames.Length == NWORDS && HasPage(kdir.tables, k)
      modifies `kdir, frames
      ensures Entry(old(kdir).tables, k).frame != 0 ==> !panic && kdir == old(kdir) && frames[..] == old(frames[..])
      ensures Entry(old(kdir).tables, k).frame == 0 ==> panic == AllUsed(old(frames[..]))
      ensures panic ==> kdir == old(kdir) && frames[..] == old(frames[..])
      ensures Entry(old(kdir).tables, k).frame == 0 && !panic ==>
                && frame < NFRAMES && !Used(old(frames[..]), frame)
                && (forall f :: 0 <= f < frame ==> Used(old(frames[..]), f))
                && kdir == old(kdir).(tables := SetEntry(old(kdir).tables, k, PageEntry(true, true, false, frame)))
                && forall f :: 0 <= f < NFRAMES ==> Used(frames[..], f) == (old(Used(frames[..], f)) || f == frame)
    {
      frame := 0;
      var entry := Entry(kdir.tables, k);
      if entry.frame != 0 {
        return false, 0;
      }
      var index := FindFree(frames);
      if index == NO_FRAME {
        assert AllUsed(frames[..]);
        return true, 0;
      }
      frame := index;
      SetBit(frames, index * PAGE_SIZE);
      entry := entry.(present := true, frame := index, writeable := true, usermode := false);
      kdir := kdir.(tables := SetEntry(kdir.tables, k, entry));
      panic := false;
    }

    ghost predicate Booted(n: nat, h: nat, c: nat)
      reads this, frames
    {
      frames.Length == NWORDS && PAGE_SIZE <= end && Booting(kdir, frames[..], end, physAlloc, n, h, c)
    }

    /** get_page on the next page of the identity loop. */
    method NextTable(addr: nat, ghost n: nat) returns (k: nat)
      requires addr == n * PAGE_SIZE && n <= NFRAMES && Booted(n, 0, TablesFor(n))
      modifies `physAlloc, `kdir
      ensures k == n && k / ENTRIES in kdir.tables && Booted(n, 0, TablesFor(n + 1))
      ensures physAlloc == Taken(end, TablesFor(n + 1))
    {
      ghost var dir0, at := kdir, 0;
      TableOf(dir0, n);
      hide Booting, TablesFor, WithTable;
      k, at := GetPage(addr);
      assert k == n;
      if k / ENTRIES !in dir0.tables {
        TableMade(dir0, frames[..], end, old(physAlloc), n, TablesFor(n), at);
      }
    }

    /** new_frame on an absent page when exactly the frames below `m` are taken. */
    method TakeFrame(k: nat, ghost m: nat) returns (panic: bool)
      requires frames.Length == NWORDS && HasPage(kdir.tables, k) && Entry(kdir.tables, k) == ABSENT
      requires m <= NFRAMES && forall f :: 0 <= f < NFRAMES ==> Used(frames[..], f) == (f < m)
      modifies `kdir, frames
      ensures panic == (m == NFRAMES)
      ensures !panic ==> kdir == old(kdir).(tables := SetEntry(old(kdir).tables, k, Kernel(m)))
      ensures !panic ==> forall f :: 0 <= f < NFRAMES ==> Used(frames[..], f) == (old(Used(frames[..], f)) || f == m)
    {
      ghost var frames0, frame := frames[..], 0;
      panic, frame := NewFrame(k);
      LowestFree(frames0, m, frame);
    }

    /** new_frame on the next page of either loop. */
    method FillPage(k: nat, ghost n: nat, ghost h: nat, ghost n': nat, ghost h': nat, ghost c: nat)
      returns (panic: bool)
      requires Booted(n, h, c) && k / ENTRIES in kdir.tables
      requires Follows(k, n, h, n', h')
      modifies `kdir, frames
      ensures panic == (n + h == NFRAMES)
      ensures !panic ==> Booted(n', h', c)
    {
      hide Booting, SetEntry, Entry, HasPage, Used, Kernel;
      ghost var dir, frames0 := kdir, frames[..];
      NextPage(dir, frames0, end, physAlloc, n, h, c, k);
      panic := TakeFrame(k, n + h);
      if !panic {
        PageMapped(dir, frames0, frames[..], end, physAlloc, n, h, n', h', c, k);
      }
    }

    /** Lines 414-423 */
    method MakeHeapTables()
      requires frames.Length == NWORDS && (forall f :: 0 <= f < NFRAMES ==> !Used(frames[..], f))
      requires PAGE_SIZE <= end == physAlloc
      modifies `physAlloc, `kdir
      ensures Booted(0, 0, 0)
    {
      var at := PhysicalAlloc(SIZEOF_PAGE_DIR, true);
      kdir := PageDir(at, map[], map[], map[]);
      var i := KHEAP_BASE;
      while i < KHEAP_BASE + KHEAP_SIZE
        invariant KHEAP_BASE <= i <= KHEAP_BASE + KHEAP_SIZE
        invariant if i == KHEAP_BASE then kdir == PageDir(at, map[], map[], map[]) && physAlloc == at + SIZEOF_PAGE_DIR
                  else Booted(0, 0, 0)
      {
        ghost var dir := kdir;
        var page, tableAt := GetPage(i);
        assert page / ENTRIES == HEAP_TABLE;
        if i == KHEAP_BASE {
          FirstTable(frames[..], end, at, tableAt);
        }
        i := i + 1;
      }
    }

    /** `new_frame(get_page(addr, kdir, 1))` on the next page of the identity loop. */
    method MapIdentityPage(addr: nat, ghost n: nat) returns (panic: bool)
      requires addr == n * PAGE_SIZE && n <= NFRAMES && Booted(n, 0, TablesFor(n))
      modifies `physAlloc, `kdir, frames
      ensures panic == (n == NFRAMES) && physAlloc == Taken(end, TablesFor(n + 1))
      ensures !panic ==> Booted(n + 1, 0, TablesFor(n + 1))
    {
      hide Booting, TablesFor, Taken;
      var page := NextTable(addr, n);
      panic := FillPage(page, n, 0, n + 1, 0, TablesFor(n + 1));
    }

    /** Lines 428-430. The loop bound grows as tables are made; each table costs at most two pages. */
    method MapIdentity() returns (panic: bool, ghost n: nat)
      requires Booted(0, 0, 0)
      modifies `physAlloc, `kdir, frames
      ensures n <= NFRAMES
      ensures panic ==> n == NFRAMES && physAlloc == Taken(end, TablesFor(n + 1))
      ensures panic ==> n * PAGE_SIZE < Taken(end, TablesFor(n)) + KHEAP_SIZE
      ensures forall m :: 0 <= m < n ==> BelowBound(end, m)
      ensures !panic ==>
                && Booted(n, 0, TablesFor(n))
                && physAlloc == Taken(end, TablesFor(n)) && n * PAGE_SIZE == physAlloc + KHEAP_SIZE
    {
      assert TablesFor(0) == 0 && physAlloc == Taken(end, TablesFor(0));
      hide Booting, TablesFor, Taken, BelowBound;
      var i := 0;
      n, panic := 0, false;
      while i < physAlloc + KHEAP_SIZE
        invariant i == n * PAGE_SIZE && n <= NFRAMES && Booted(n, 0, TablesFor(n))
        invariant n * PAGE_SIZE <= physAlloc + KHEAP_SIZE && physAlloc == Taken(end, TablesFor(n))
        invariant TablesFor(n) <= ENTRIES
        invariant forall m :: 0 <= m < n ==> BelowBound(end, m)
        decreases physAlloc + KHEAP_SIZE - i + 2 * PAGE_SIZE * (ENTRIES - TablesFor(n))
      {
        BoundGrows(end, n, physAlloc);
        TablesGrow(n);
        panic := MapIdentityPage(i, n);
        if panic {
          return;
        }
        i := i + PAGE_SIZE;
        n := n + 1;
      }
    }

    /** `new_frame(get_page(addr, kdir, 1))` on the next page of the heap loop. */
    method MapHeapPage(addr: nat, ghost n: nat, ghost h: nat, ghost c: nat) returns (panic: bool)
      requires Booted(n, h, c) && h < HEAP_PAGES && addr == (HEAP_PAGE + h) * PAGE_SIZE
      modifies `physAlloc, `kdir, frames
      ensures panic == (n + h == NFRAMES) && physAlloc == old(physAlloc)
      ensures !panic ==> Booted(n, h + 1, c)
    {
      HeapPage(kdir, frames[..], end, physAlloc, n, h, c);
      hide Booting;
      var page, _ := GetPage(addr);
      assert page == HEAP_PAGE + h;
      panic := FillPage(page, n, h, n, h + 1, c);
    }

    /** Lines 434-436 */
    method MapHeap(ghost n: nat, ghost c: nat) returns (panic: bool)
      requires Booted(n, 0, c)
      modifies `physAlloc, `kdir, frames
      ensures physAlloc == old(physAlloc)
      ensures panic == (NFRAMES < n + HEAP_PAGES)
      ensures !panic ==> Booted(n, HEAP_PAGES, c)
    {
      assert n <= NFRAMES;
      hide Booting;
      var i := KHEAP_BASE;
      ghost var h := 0;
      while i < KHEAP_BASE + KHEAP_SIZE
        invariant i == (HEAP_PAGE + h) * PAGE_SIZE && 0 <= h <= HEAP_PAGES
        invariant Booted(n, h, c) && physAlloc == old(physAlloc) && n + h <= NFRAMES
        decreases HEAP_PAGES - h
      {
        panic := MapHeapPage(i, n, h, c);
        if panic {
          return;
        }
        i := i + PAGE_SIZE;
        h := h + 1;
      }
      panic := false;
    }

    /**
     vm_init up to the switch to paging. It panics exactly when the kernel image ends too high for the frames;
     otherwise page k is frame k, up to the end of everything allocated, and that end is known from the image:
     `n` is the first page that the growing bound does not reach beyond.
     */
    method VmInit() returns (panic: bool, ghost n: nat, ghost mapped: Tables)
      requires frames.Length == NWORDS && (forall f :: 0 <= f < NFRAMES ==> !Used(frames[..], f))
      requires PAGE_SIZE <= end == physAlloc && end + 0x40000 <= 0x1_0000_0000
      modifies `physAlloc, `kdir, frames
      ensures physAlloc + KHEAP_SIZE < 0x1_0000_0000
      ensures panic <==> KERNEL_LIMIT <= end
      ensures !panic ==>
                && physAlloc == (end / PAGE_SIZE + 5) * PAGE_SIZE + 2 * PAGE_SIZE * TablesFor(n)
                && n == physAlloc / PAGE_SIZE + HEAP_PAGES && physAlloc % PAGE_SIZE == 0
                && !BelowBound(end, n) && (forall m :: 0 <= m < n ==> BelowBound(end, m))
                && Placed(kdir, end, physAlloc)
                && Layout(mapped, frames[..], n, HEAP_PAGES)
                && HasPage(mapped, 0) && kdir.tables == SetEntry(mapped, 0, ABSENT)
                && MappedFor(kdir.tables, n)
    {
      hide Booting, Layout, Placed, MappedFor;
      mapped := map[];
      MakeHeapTables();
      panic, n := MapIdentity();
      PagesNeeded(end, n);
      if panic {
        return;
      }
      panic := MapHeap(n, TablesFor(n));
      if !panic {
        mapped := kdir.tables;
        PageZero(kdir, frames[..], end, physAlloc, n, HEAP_PAGES, TablesFor(n));
        PagesMapped(mapped, frames[..], n);
        kdir := kdir.(tables := SetEntry(kdir.tables, 0, ABSENT));
      }
    }
  }

  /** The kernel heap's pages have their table from the start. */
  lemma HeapPage(dir: PageDir, frames: seq<Word>, end: nat, physAlloc: nat, n: nat, h: nat, c: nat)
    requires Booting(dir, frames, end, physAlloc, n, h, c)
    ensures n + h <= NFRAMES && frames != []
    ensures h < HEAP_PAGES ==> (HEAP_PAGE + h) / ENTRIES in dir.tables
    ensures h < HEAP_PAGES ==> (HEAP_PAGE + h) * PAGE_SIZE / PAGE_SIZE == HEAP_PAGE + h < ENTRIES * ENTRIES
  {
    assert h < HEAP_PAGES ==> (HEAP_PAGE + h) / ENTRIES == HEAP_TABLE;
  }

  /** Taking page 0 away moves no table. */
  lemma PageZero(dir: PageDir, frames: seq<Word>, end: nat, physAlloc: nat, n: nat, h: nat, c: nat)
    requires Booting(dir, frames, end, physAlloc, n, h, c) && 0 < n
    ensures Layout(dir.tables, frames, n, h) && HasPage(dir.tables, 0)
    ensures Placed(dir.(tables := SetEntry(dir.tables, 0, ABSENT)), end, physAlloc)
  {
    assert HasPage(dir.tables, 0);
    hide Layout;
    SetEntrySets(dir.tables, 0, ABSENT);
    SameTables(dir, SetEntry(dir.tables, 0, ABSENT), end, physAlloc, c);
  }

  lemma FirstTable(frames: seq<Word>, end: nat, at: nat, tableAt: nat)
    requires |frames| == NWORDS && forall f :: 0 <= f < NFRAMES ==> !Used(frames, f)
    requires PAGE_SIZE <= end && at == Aligned(end) && tableAt == Aligned(at + SIZEOF_PAGE_DIR)
    ensures var dir := PageDir(at, map[], map[], map[]);
            Booting(WithTable(dir, HEAP_TABLE, tableAt), frames, end, tableAt + SIZEOF_PAGE_TABLE, 0, 0, 0)
  {
    hide Aligned;
    AlignedFacts(end);
    AlignedFacts(at + SIZEOF_PAGE_DIR);
    assert at + SIZEOF_PAGE_DIR == (end / PAGE_SIZE + 3) * PAGE_SIZE;
    var dir := PageDir(at, map[], map[], map[]);
    assert Layout(dir.tables, frames, 0, 0);
    AddTable(dir.tables, frames, 0, 0, HEAP_TABLE);
    hide Layout;
    PlaceTable(dir, end, at + SIZEOF_PAGE_DIR, HEAP_TABLE, tableAt);
  }

  // ---------------------------------------------------------------- what the mapping means

  /** The physical address the processor uses for `addr`, if its page is present. */
  function Translate(tables: Tables, addr: nat): Option<nat> {
    if HasPage(tables, addr / PAGE_SIZE) && Entry(tables, addr / PAGE_SIZE).present
    then Some(Entry(tables, addr / PAGE_SIZE).frame * PAGE_SIZE + addr % PAGE_SIZE)
    else None
  }

  /**
   Present and writeable for the kernel alone: page k on frame k, and the sixteen heap pages from 0xD000 on, on the
   frames behind those. Every other page with a table is absent, the NULL page too.
   */
  ghost predicate MappedFor(tables: Tables, n: nat) {
    && (forall k :: 1 <= k < n ==> HasPage(tables, k) && Entry(tables, k) == PageEntry(true, true, false, k))
    && (forall k :: 0xD000 <= k < 0xD010 ==>
          HasPage(tables, k) && Entry(tables, k) == PageEntry(true, true, false, n + (k - 0xD000)))
    && (forall k: nat :: HasPage(tables, k) && (k == 0 || n <= k) && !(0xD000 <= k < 0xD010) ==>
          Entry(tables, k) == PageEntry(false, false, false, 0))
  }

  lemma PagesMapped(tables: Tables, frames: seq<Word>, n: nat)
    requires Layout(tables, frames, n, HEAP_PAGES) && HasPage(tables, 0)
    ensures MappedFor(SetEntry(tables, 0, ABSENT), n)
  {
    SetEntrySets(tables, 0, ABSENT);
    hide SetEntry, Entry;
    forall k | 1 <= k < n || 0xD000 <= k < 0xD010 ensures HasPage(tables, k) {
    }
  }

  /** All allocated memory beyond page 0 keeps its address when paging is switched on; a NULL access faults. */
  lemma IdentityMapped(tables: Tables, frames: seq<Word>, n: nat, addr: nat)
    requires Layout(tables, frames, n, HEAP_PAGES) && 0 < n && addr < n * PAGE_SIZE
    ensures HasPage(tables, 0)
    ensures Translate(SetEntry(tables, 0, ABSENT), addr) == if addr < PAGE_SIZE then None else Some(addr)
  {
    assert HasPage(tables, 0) && HasPage(tables, addr / PAGE_SIZE);
    SetEntrySets(tables, 0, ABSENT);
    assert addr == addr / PAGE_SIZE * PAGE_SIZE + addr % PAGE_SIZE;
  }

  /** Two addresses in different pages never share a frame. */
  lemma NoSharedFrame(tables: Tables, frames: seq<Word>, n: nat, h: nat, a: nat, b: nat)
    requires Layout(tables, frames, n, h) && a / PAGE_SIZE != b / PAGE_SIZE
    requires Translate(tables, a).Some? && Translate(tables, b).Some?
    ensures Translate(tables, a).value / PAGE_SIZE != Translate(tables, b).value / PAGE_SIZE
    ensures Used(frames, Translate(tables, a).value / PAGE_SIZE)
  {
    var k, l := a / PAGE_SIZE, b / PAGE_SIZE;
    assert Entry(tables, k) == Expected(k, n, h) && Entry(tables, l) == Expected(l, n, h);
    FrameOf(Entry(tables, k).frame, a % PAGE_SIZE);
    FrameOf(Entry(tables, l).frame, b % PAGE_SIZE);
  }

  lemma FrameOf(frame: nat, offset: nat)
    requires offset < PAGE_SIZE
    ensures (frame * PAGE_SIZE + offset) / PAGE_SIZE == frame
  {
  }
}
