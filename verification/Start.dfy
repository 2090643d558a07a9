/** sys/main.c: from the memory map to the kernel running on its own tables. */
module Start {
  import opened Words
  import opened Mmu
  import opened PageTree
  import opened AddressSpace
  import opened Mapping
  import opened Ranges
  import opened Prefixes
  import opened Spaces
  import opened Paging
  import opened FreeList
  import opened Boot
  import opened Runs
  import opened Accounts
  import opened Protection

  const VIDEO: Word := 0xb8000

  // ---- Reading the memory map ----

  datatype Smap = Smap(base: Word, length: Word, kind: nat)

  predicate Usable(e: Smap) {
    e.kind == 1 && e.length != 0
  }

  /** What the first n entries of the memory map put on the list. */
  function FoundIn(smap: seq<Smap>, n: nat, physfree: Word): Found
    requires n <= |smap|
  {
    if n == 0 then Found([], 0)
    else
      var found, e := FoundIn(smap, n - 1, physfree), smap[n - 1];
      if Usable(e) then Add(found, e.base, e.base + e.length, physfree) else found
  }

  predicate EntryFits(smap: seq<Smap>, i: nat, physfree: Word)
    requires i < |smap|
  {
    var e := smap[i];
    Usable(e) ==>
      && e.base + e.length < 0x10_0000_0000_0000
      && RegionFits(FoundIn(smap, i, physfree), e.base, e.base + e.length, physfree)
  }

  predicate EntryRoom(smap: seq<Smap>, i: nat, physfree: Word)
    requires i < |smap|
  {
    var e := smap[i];
    Usable(e) ==>
      && e.base + e.length < 0x10_0000_0000_0000
      && RegionRoom(FoundIn(smap, i, physfree), e.base, e.base + e.length, physfree)
  }

  /** A memory map that append_free_list can take, entry by entry. */
  ghost predicate SmapRoom(smap: seq<Smap>, physfree: Word) {
    forall i {:trigger EntryRoom(smap, i, physfree)} :: 0 <= i < |smap| ==> EntryRoom(smap, i, physfree)
  }

  /** A memory map whose regions ascend without touching and whose list fits into the first region. */
  ghost predicate SmapFits(smap: seq<Smap>, physfree: Word) {
    forall i {:trigger EntryFits(smap, i, physfree)} :: 0 <= i < |smap| ==> EntryFits(smap, i, physfree)
  }

  /** The free list after the first n entries of the memory map. */
  ghost predicate ListFrom(k: Kernel, found: Found, physfree: Word)
    reads k
  {
    && Built(k) && k.frames == found.frames
    && (k.freeList == 0 <==> found.first == 0)
    && (k.freeList != 0 ==> k.base == physfree)
  }

  /** Memory below a frame is what it was. */
  ghost predicate SameBelow(m: Memory, m': Memory, first: nat) {
    forall f: nat, i: nat {:trigger Read(m', f, i)} :: f < first ==> Read(m', f, i) == Read(m, f, i)
  }

  lemma SameBelowThen(m: Memory, m1: Memory, m2: Memory, first: nat)
    requires SameBelow(m, m1, first) && SameBelow(m1, m2, first)
    ensures SameBelow(m, m2, first)
  {
    forall f: nat, i: nat | f < first
      ensures Read(m2, f, i) == Read(m, f, i)
    {
      assert Read(m1, f, i) == Read(m, f, i);
    }
  }

  /** All pages on the list lie above physfree. */
  lemma {:induction false} FoundAbove(smap: seq<Smap>, n: nat, physfree: Word)
    requires n <= |smap|
    ensures AllAbove(FoundIn(smap, n, physfree).frames, RoundUp(physfree) / 4096)
  {
    hide RoundUp;
    if n > 0 {
      var k: nat := n - 1;
      FoundAbove(smap, k, physfree);
    }
  }

  predicate AllAbove(fs: seq<nat>, first: nat) {
    forall j :: 0 <= j < |fs| ==> fs[j] >= first
  }

  lemma ClearedBelow(m: Memory, m': Memory, base: nat, fs: seq<nat>)
    requires Cleared(m, m', base, |fs|, fs) && AllAbove(fs, base / 4096)
    ensures SameBelow(m, m', base / 4096)
  {
    forall f: nat, i: nat | f < base / 4096
      ensures Read(m', f, i) == Read(m, f, i)
    {
      assert !Storage(base, |fs|, f);
    }
  }

  /** One entry of the memory map. */
  method ReadEntry(k: Kernel, smap: seq<Smap>, i: nat, physfree: Word)
    requires 0 < physfree < 0x10_0000_0000_0000 && physfree % 4096 == 0 && i < |smap| && EntryRoom(smap, i, physfree)
    requires ListFrom(k, FoundIn(smap, i, physfree), physfree)
    modifies k`mem, k`freeList, k`freeListTotalPages, k`base, k`frames
    ensures ListFrom(k, FoundIn(smap, i + 1, physfree), physfree)
    ensures Cleared(old(k.mem), k.mem, physfree, |k.frames|, k.frames[|old(k.frames)|..])
  {
    hide Chain, Cleared, Add, RegionRoom;
    var e := smap[i];
    NothingCleared(k.mem, physfree, |k.frames|);
    assert k.frames[|k.frames|..] == [];
    if e.kind == 1 && e.length != 0 {
      assert RoundUp(physfree) == physfree;
      ghost var found, m := FoundIn(smap, i, physfree), k.mem;
      NoneBeforeFirst(smap, i, physfree);
      AddGrows(found, e.base, e.base + e.length, physfree);
      AppendFreeList(k, e.base, e.base + e.length, physfree, found);
    }
  }

  /** initialize_free_list, and append_free_list for each usable entry of the memory map. */
  method ReadMemoryMap(k: Kernel, smap: seq<Smap>, physfree: Word)
    requires 0 < physfree < 0x10_0000_0000_0000 && physfree % 4096 == 0 && SmapRoom(smap, physfree)
    modifies k`mem, k`freeList, k`freeListTotalPages, k`base, k`frames
    ensures ListFrom(k, FoundIn(smap, |smap|, physfree), physfree)
    ensures Cleared(old(k.mem), k.mem, physfree, |k.frames|, k.frames)
  {
    hide Cleared;
    ghost var m := k.mem;
    k.freeList, k.freeListTotalPages := 0, 0;
    k.frames, k.base := [], 0;
    NothingCleared(m, physfree, 0);
    for i := 0 to |smap|
      invariant ListFrom(k, FoundIn(smap, i, physfree), physfree)
      invariant Cleared(m, k.mem, physfree, |k.frames|, k.frames)
    {
      assert EntryRoom(smap, i, physfree);
      ghost var m1, fs := k.mem, k.frames;
      ReadEntry(k, smap, i, physfree);
      ClearedThen(m, m1, k.mem, physfree, |fs|, |k.frames|, fs, k.frames[|fs|..]);
      assert fs + k.frames[|fs|..] == k.frames;
    }
  }

  /** Regions that ascend without touching leave room, and keep the frames in order. */
  lemma {:induction false} FoundInOk(smap: seq<Smap>, n: nat, physfree: Word)
    requires SmapFits(smap, physfree) && n <= |smap|
    ensures FoundOk(FoundIn(smap, n, physfree), physfree)
  {
    hide FoundOk, RegionFits, Add;
    if n == 0 {
      EmptyIsOk(physfree);
    } else {
      var k: nat := n - 1;
      FoundInOk(smap, k, physfree);
      assert EntryFits(smap, k, physfree);
      var e := smap[k];
      if Usable(e) { AddKeeps(FoundIn(smap, k, physfree), e.base, e.base + e.length, physfree); }
    }
  }

  lemma EmptyIsOk(physfree: nat)
    ensures FoundOk(Found([], 0), physfree)
  {
  }

  lemma FitsHasRoom(smap: seq<Smap>, physfree: Word)
    requires SmapFits(smap, physfree)
    ensures SmapRoom(smap, physfree)
  {
    hide FoundOk, RegionFits, RegionRoom, FoundIn;
    forall i | 0 <= i < |smap|
      ensures EntryRoom(smap, i, physfree)
    {
      FoundInOk(smap, i, physfree);
      assert EntryFits(smap, i, physfree);
      var e := smap[i];
      if Usable(e) { FitsLeavesRoom(FoundIn(smap, i, physfree), e.base, e.base + e.length, physfree); }
    }
  }

  lemma AddGrows(found: Found, start: nat, end: nat, physfree: nat)
    requires found.first == 0 ==> found.frames == []
    ensures |found.frames| <= |Add(found, start, end, physfree).frames|
  {
  }

  /** The pages of these frames are zero but for the part that append_free_list clears. */
  ghost predicate ZeroTails(m: Memory, fs: seq<nat>) {
    forall j, i :: 0 <= j < |fs| && 64 <= i < SLOTS ==> Read(m, fs[j], i) == 0
  }

  /** Clearing the rest leaves them zero. */
  lemma ClearedIsZero(m: Memory, m': Memory, base: nat, fs: seq<nat>, j: nat)
    requires Cleared(m, m', base, |fs|, fs) && ZeroTails(m, fs) && j < |fs| && !Storage(base, |fs|, fs[j])
    ensures ZeroFrame(m', fs[j])
  {
  }

  /** Once its head has been set the list is ready for use. */
  lemma ListIsReady(m: Memory, s: Space, found: Found, physfree: Word)
    requires FoundOk(found, physfree) && found.first > 0 && physfree % 4096 == 0 && 0 < physfree
    requires s.frames == found.frames && s.base == physfree && s.pos == ListPages(|s.frames|)
    requires Chain(s.mem, s.base, s.frames)
    requires Cleared(m, s.mem, physfree, |s.frames|, s.frames) && ZeroTails(m, s.frames)
    ensures ListReady(s)
  {
    var b := physfree / 4096;
    assert RoundUp(physfree) == physfree;
    forall j | s.pos <= j < |s.frames|
      ensures NodeStored(s, j)
      ensures 0 < s.frames[j] < FRAME_LIMIT && !ListFrame(s, s.frames[j]) && ZeroFrame(s.mem, s.frames[j])
    {
      assert NodeOf(s.mem, s.base, s.frames, j);
      ListKeepsClear(found, physfree, j);
      FramesAboveStart(found, physfree, j);
      StorageIsSmall(found, physfree, j);
      ClearedIsZero(m, s.mem, physfree, s.frames, j);
    }
  }

  lemma FramesAboveStart(found: Found, physfree: nat, j: nat)
    requires FoundOk(found, physfree) && found.first > 0 && j < |found.frames|
    ensures RoundUp(physfree) / 4096 <= found.frames[j]
  {
    assert found.frames[0] == RoundUp(physfree) / 4096;
  }

  lemma StorageIsSmall(found: Found, physfree: nat, j: nat)
    requires FoundOk(found, physfree) && found.first > 0 && j < |found.frames|
    ensures RoundUp(physfree) + NODE * j + 16 < WORD_LIMIT
  {
    assert found.frames[found.first - 1] == RoundUp(physfree) / 4096 + found.first - 1;
    assert RoundUp(physfree) == 4096 * (RoundUp(physfree) / 4096);
  }

  /** Three usable regions, the second and the third of which touch, as memory maps have them: the page
      between these is on the list twice. */
  lemma TouchingRegionsShareAPage()
    ensures var smap := [Smap(0x10_0000, 0x70_0000, 1), Smap(0x80_0000, 0x10_0000, 1), Smap(0x90_0000, 0x10_0000, 1)];
            var fs := FoundIn(smap, 3, 0x30_0000).frames;
            |fs| > 0x601 && fs[0x600] == 0x900 == fs[0x601] && SmapRoom(smap, 0x30_0000)
  {
    var smap := [Smap(0x10_0000, 0x70_0000, 1), Smap(0x80_0000, 0x10_0000, 1), Smap(0x90_0000, 0x10_0000, 1)];
    var none := Found([], 0);
    assert FoundIn(smap, 0, 0x30_0000) == none;
    var one := Found(Region(0x300, 0x500), 0x500);
    assert FoundIn(smap, 1, 0x30_0000) == Add(none, 0x10_0000, 0x80_0000, 0x30_0000) == one;
    var two := Found(Region(0x300, 0x500) + Region(0x800, 0x101), 0x500);
    assert FoundIn(smap, 2, 0x30_0000) == Add(one, 0x80_0000, 0x90_0000, 0x30_0000) == two;
    assert FoundIn(smap, 3, 0x30_0000) == Add(two, 0x90_0000, 0xa0_0000, 0x30_0000);
  }

  // ---- Pages on the list that are in no usable region ----

  /** The whole page of frame f lies in the region. */
  predicate Within(e: Smap, f: nat) {
    e.base <= 4096 * f && 4096 * f + 4096 <= e.base + e.length
  }

  /** Entry i of the memory map puts frame f on the list. */
  predicate Lists(smap: seq<Smap>, i: nat, physfree: Word, f: nat)
    requires i < |smap|
  {
    var (found, e) := (FoundIn(smap, i, physfree), smap[i]);
    var (a, b, p) := (RoundUp(e.base) / 4096, RoundUp(e.base + e.length) / 4096, RoundUp(physfree) / 4096);
    Usable(e) && if found.first == 0 then a <= p <= f < b else p <= a <= f <= b
  }

  lemma {:induction false} ListedBy(smap: seq<Smap>, n: nat, physfree: Word, f: nat)
    requires n <= |smap|
    ensures f in FoundIn(smap, n, physfree).frames <==> exists i :: 0 <= i < n && Lists(smap, i, physfree, f)
  {
    hide RoundUp;
    if n > 0 {
      var k: nat := n - 1;
      ListedBy(smap, k, physfree, f);
      NoneBeforeFirst(smap, k, physfree);
      AddsListed(smap, k, physfree, f);
    }
  }

  lemma AddsListed(smap: seq<Smap>, k: nat, physfree: Word, f: nat)
    requires k < |smap| && (FoundIn(smap, k, physfree).first == 0 ==> FoundIn(smap, k, physfree).frames == [])
    ensures f in FoundIn(smap, k + 1, physfree).frames
        <==> f in FoundIn(smap, k, physfree).frames || Lists(smap, k, physfree, f)
  {
    hide RoundUp;
    var (found, e) := (FoundIn(smap, k, physfree), smap[k]);
    var (a, b, p) := (RoundUp(e.base) / 4096, RoundUp(e.base + e.length) / 4096, RoundUp(physfree) / 4096);
    if p <= b { RegionHas(p, b - p, f); }
    if a <= b { RegionHas(a, b - a + 1, f); }
  }

  lemma RegionHas(a: nat, n: nat, f: nat)
    ensures f in Region(a, n) <==> a <= f < a + n
  {
    if a <= f < a + n { assert Region(a, n)[f - a] == f; }
  }

  lemma {:induction false} NoneBeforeFirst(smap: seq<Smap>, n: nat, physfree: Word)
    requires n <= |smap|
    ensures FoundIn(smap, n, physfree).first == 0 ==> FoundIn(smap, n, physfree).frames == []
  {
    hide RoundUp;
    if n > 0 {
      var k: nat := n - 1;
      NoneBeforeFirst(smap, k, physfree);
    }
  }

  /** The last page that a later region puts on the list is never within it, the one before exactly if
      the region ends on a page boundary; a frame on the list is in no usable region exactly if it is
      such a page of every entry that lists it, and within no other. */
  lemma ListedOutside(smap: seq<Smap>, n: nat, physfree: Word, f: nat)
    requires n <= |smap| && f in FoundIn(smap, n, physfree).frames
    ensures forall i :: 0 <= i < n && Lists(smap, i, physfree, f) ==>
              (Within(smap[i], f) <==> f < (smap[i].base + smap[i].length) / 4096)
    ensures (forall i :: 0 <= i < n && Usable(smap[i]) ==> !Within(smap[i], f))
        <==> (forall i :: 0 <= i < n && Usable(smap[i]) ==>
                if Lists(smap, i, physfree, f) then f >= (smap[i].base + smap[i].length) / 4096
                else !Within(smap[i], f))
  {
    forall i | 0 <= i < n && Lists(smap, i, physfree, f)
      ensures Within(smap[i], f) <==> f < (smap[i].base + smap[i].length) / 4096
    {
      PageInRegion(smap[i], f);
    }
  }

  lemma PageInRegion(e: Smap, f: nat)
    requires RoundUp(e.base) / 4096 <= f
    ensures Within(e, f) <==> f < (e.base + e.length) / 4096
  {
  }

  /** A page behind all memory on the list: two regions, the second of which ends at 9 MiB. */
  lemma PageBehindMemory()
    ensures var smap := [Smap(0x10_0000, 0x60_0000, 1), Smap(0x80_0000, 0x10_0000, 1)];
            && SmapFits(smap, 0x30_0000) && 0x900 in FoundIn(smap, 2, 0x30_0000).frames
            && forall i :: 0 <= i < 2 ==> !Within(smap[i], 0x900)
  {
    var smap := [Smap(0x10_0000, 0x60_0000, 1), Smap(0x80_0000, 0x10_0000, 1)];
    assert FoundIn(smap, 0, 0x30_0000) == Found([], 0);
    var one := Found(Region(0x300, 0x400), 0x400);
    assert FoundIn(smap, 1, 0x30_0000) == Add(Found([], 0), 0x10_0000, 0x70_0000, 0x30_0000) == one;
    assert EntryFits(smap, 0, 0x30_0000);
    var two := Add(one, 0x80_0000, 0x90_0000, 0x30_0000);
    assert two.frames == Region(0x300, 0x400) + Region(0x800, 0x101) && two.frames[0x500] == 0x900;
    assert FoundIn(smap, 2, 0x30_0000) == two;
    assert EntryFits(smap, 1, 0x30_0000);
  }

  // ---- No entry gets the U/S bit while booting ----

  /** What is written is the mark of a node, or an entry without the U/S bit. */
  ghost predicate KernelWrites(m: Memory, m': Memory) {
    forall f: nat, i: nat {:trigger Read(m', f, i)} ::
      var w := Read(m', f, i);
      w == Read(m, f, i) || w == 1 || w % 4096 == PAGE_KERNEL
  }

  lemma KernelWritesThen(m: Memory, m1: Memory, m2: Memory)
    requires KernelWrites(m, m1) && KernelWrites(m1, m2)
    ensures KernelWrites(m, m2)
  {
    forall f: nat, i: nat
      ensures var w := Read(m2, f, i);
              w == Read(m, f, i) || w == 1 || w % 4096 == PAGE_KERNEL
    {
      var w := Read(m1, f, i);
      assert w == Read(m, f, i) || w == 1 || w % 4096 == PAGE_KERNEL;
    }
  }

  lemma PutGuards(s: Space, f: nat, i: nat, e: Word)
    requires e % 4096 == PAGE_KERNEL
    ensures KernelWrites(s.mem, Put(s, f, i, e).mem)
  {
  }

  lemma PopGuards(s: Space)
    ensures KernelWrites(s.mem, Popped(s).mem)
  {
  }

  lemma LinkGuards(s: Space, f: nat, i: nat)
    ensures KernelWrites(s.mem, Link(s, f, i, PAGE_KERNEL).mem)
  {
    hide KernelWrites, Popped, Put;
    PopGuards(s);
    PutGuards(Popped(s), f, i, Entry(HeadFrame(s), PAGE_KERNEL));
    KernelWritesThen(s.mem, Popped(s).mem, Link(s, f, i, PAGE_KERNEL).mem);
  }

  lemma MapPdGuards(s: Space, pd: nat, v: Word, p: nat)
    requires p < FRAME_LIMIT
    ensures KernelWrites(s.mem, MapPd(s, pd, v, p, PAGE_KERNEL).mem)
  {
    hide KernelWrites, Link, I1, I2, Present, Target, Entry, Put;
    var s1 := Link(s, pd, I2(v), PAGE_KERNEL);
    PutGuards(s, Target(Read(s.mem, pd, I2(v))), I1(v), Entry(p, PAGE_KERNEL));
    LinkGuards(s, pd, I2(v));
    PutGuards(s1, HeadFrame(s), I1(v), Entry(p, PAGE_KERNEL));
    KernelWritesThen(s.mem, s1.mem, Put(s1, HeadFrame(s), I1(v), Entry(p, PAGE_KERNEL)).mem);
  }

  lemma MapPdptGuards(s: Space, pdpt: nat, v: Word, p: nat)
    requires p < FRAME_LIMIT
    ensures KernelWrites(s.mem, MapPdpt(s, pdpt, v, p, PAGE_KERNEL).mem)
  {
    hide KernelWrites, Link, MapPd, I3, Present, Target;
    var s1 := Link(s, pdpt, I3(v), PAGE_KERNEL);
    MapPdGuards(s, Target(Read(s.mem, pdpt, I3(v))), v, p);
    LinkGuards(s, pdpt, I3(v));
    MapPdGuards(s1, HeadFrame(s), v, p);
    KernelWritesThen(s.mem, s1.mem, MapPd(s1, HeadFrame(s), v, p, PAGE_KERNEL).mem);
  }

  /** Mapping a page for the kernel stores no word with the U/S bit. */
  lemma MapDirectGuards(s: Space, r: nat, v: Word, p: nat)
    requires p < FRAME_LIMIT
    ensures KernelWrites(s.mem, MapDirect(s, r, v, p, PAGE_KERNEL).mem)
  {
    hide KernelWrites, Link, MapPdpt, I4, Present, Target;
    var s1 := Link(s, r, I4(v), PAGE_KERNEL);
    MapPdptGuards(s, Target(Read(s.mem, r, I4(v))), v, p);
    LinkGuards(s, r, I4(v));
    MapPdptGuards(s1, HeadFrame(s), v, p);
    KernelWritesThen(s.mem, s1.mem, MapPdpt(s1, HeadFrame(s), v, p, PAGE_KERNEL).mem);
  }

  lemma {:induction false} BootRunGuards(s: Space, r: nat, v: Word, p: nat, n: nat)
    requires p + n <= FRAME_LIMIT
    ensures KernelWrites(s.mem, BootRun(s, r, v, p, n).mem)
  {
    hide KernelWrites, MapDirect, PageAt;
    if n > 0 {
      var k: nat := n - 1;
      BootRunGuards(s, r, v, p, k);
      BootStep(s, r, v, p, k);
      var s1 := BootRun(s, r, v, p, k);
      MapDirectGuards(s1, r, PageAt(v, k), p + k);
      KernelWritesThen(s.mem, s1.mem, BootRun(s, r, v, p, n).mem);
    } else {
      NothingWritten(s.mem);
    }
  }

  lemma NothingWritten(m: Memory)
    ensures KernelWrites(m, m)
  {
  }

  // ---- The two runs that are mapped while booting ----

  /** The run from KERNBASE + physbase / 4096 pages. */
  lemma KernelRun(v: Word, n: nat)
    requires v >= KERNBASE && v + 4096 * n < WORD_LIMIT
    ensures GoodRun(v, n)
  {
    forall i | 0 <= i < n
      ensures Canonical(PageAt(v, i)) && I4(PageAt(v, i)) != SELF
    {
      KernelAddress(PageAt(v, i));
    }
  }

  /** Frame f after a run of consecutive frames from first on has been mapped at KERNBASE plus
      their addresses. */
  lemma RunPlaces(s: Space, s': Space, r: nat, v: Word, first: nat, n: nat, f: nat)
    requires RunMapped(s, s', r, v, Region(first, n)) && IsRoot(s.tables, r) && GoodRun(v, n)
    requires first + n <= WINDOW_LIMIT && v == KERNBASE + 4096 * first && f < WINDOW_LIMIT
    ensures var u := Page(KernPage(f));
            Follow(s'.mem, r, u) == if first <= f < first + n then Some(f) else Follow(s.mem, r, u)
  {
    hide Page;
    var u, fs := Page(KernPage(f)), Region(first, n);
    KernelAddress(KernPage(f));
    PlacedAt(v, fs, n, u);
    assert RunChange(s.mem, s'.mem, r, v, fs, r, u);
    if first <= f < first + n {
      assert PageAt(v, f - first) == KernPage(f);
    } else {
      forall i | 0 <= i < n
        ensures u != Page(PageAt(v, i))
      {
        PageIdentifies(KernPage(f), PageAt(v, i));
        PageNumbers(first + i, f);
      }
    }
  }

  lemma PageNumbers(f: nat, g: nat)
    ensures (KERNBASE + 4096 * f) / 4096 == (KERNBASE + 4096 * g) / 4096 ==> f == g
  {
  }

  /** Pages above both runs are left alone. */
  lemma RunSpares(s: Space, s': Space, r: nat, v: Word, first: nat, n: nat, w: Word)
    requires RunMapped(s, s', r, v, Region(first, n)) && IsRoot(s.tables, r) && GoodRun(v, n)
    requires v % 4096 == 0 && v >= KERNBASE && w >= v + 4096 * n
    ensures Follow(s'.mem, r, Page(w)) == Follow(s.mem, r, Page(w))
  {
    hide Page;
    KernelAddress(w);
    BeyondRun(v, Region(first, n), w);
    assert RunChange(s.mem, s'.mem, r, v, Region(first, n), r, Page(w));
  }

  lemma PageNeedsHalf(m: Memory, r: nat, v: Word)
    requires Follow(m, r, Page(v)).Some?
    ensures Present(Read(m, r, I4(v)))
  {
    assert Follow(m, r, Dir2(v)).Some? && Follow(m, r, Dir3(v)).Some?;
  }

  /** What booting has made of the first, bare space b when the kernel switches to it: the kernel
      image, the list and ten pages more at KERNBASE, and the two video pages. */
  ghost predicate Booted(b: Space, s1: Space, s: Space, physbase: Word, physfree: Word) {
    var r, n := b.kroot, b.hi - b.lo;
    && b.lo == physbase / 4096 && b.lo <= physfree / 4096 <= b.hi
    && Bare(b) && !UserBit(Read(s.mem, r, KERNEL_HALF))
    && BootOutcome(b, s1, r, KernPage(b.lo), b.lo, n, RunDirs(KernPage(b.lo), n))
    && BootOutcome(s1, s, r, KernPage(VIDEO / 4096), VIDEO / 4096, 2, RunDirs(KernPage(VIDEO / 4096), 2))
  }

  /** Where the kernel's PML4 and the list lie. */
  predicate Placement(s: Space, physfree: Word) {
    var l := ListPages(|s.frames|);
    && physfree % 4096 == 0 && s.base == physfree
    && s.hi == physfree / 4096 + l + 11 && s.hi + 200 < WINDOW_LIMIT
    && s.kroot == physfree / 4096 + l
  }

  lemma BootedRoots(b: Space, s1: Space, s: Space, physbase: Word, physfree: Word)
    requires Booted(b, s1, s, physbase, physfree) && b.hi + 200 < WINDOW_LIMIT
    ensures IsRoot(b.tables, b.kroot) && IsRoot(s1.tables, b.kroot) && IsRoot(s.tables, b.kroot)
    ensures s.kroot == s1.kroot == b.kroot && s.lo == b.lo && s.hi == b.hi && s.base == b.base && s.frames == b.frames
    ensures RunMapped(b, s1, b.kroot, KernPage(b.lo), Region(b.lo, b.hi - b.lo))
    ensures RunMapped(s1, s, b.kroot, KernPage(VIDEO / 4096), Region(VIDEO / 4096, 2))
    ensures GoodRun(KernPage(b.lo), b.hi - b.lo) && GoodRun(KernPage(VIDEO / 4096), 2)
    ensures BootInv(s)
    ensures UserOk(s.mem, s.tables)
  {
    hide RunChange, BootInv, UserOk, RunDirs, Absent, NewTablesTaken, GoodRun;
    BareIsBuilding(b);
    KernelRun(KernPage(b.lo), b.hi - b.lo);
    KernelRun(KernPage(VIDEO / 4096), 2);
    RootOfBoot(b);
  }

  lemma RootOfBoot(s: Space)
    requires Bare(s)
    ensures IsRoot(s.tables, s.kroot) && !s.tables[s.kroot].user
  {
  }

  /** The hand-over: once both runs are mapped, the kernel's PML4 and every list node can be
      reached at KERNBASE plus their physical address. */
  lemma WindowMade(b: Space, s1: Space, s: Space, physbase: Word, physfree: Word)
    requires Booted(b, s1, s, physbase, physfree) && Placement(b, physfree)
    ensures Inv(s)
  {
    hide Booted, BootInv, Page, RunMapped, GoodRun, UserOk;
    BootedRoots(b, s1, s, physbase, physfree);
    BootedLow(b, s1, s, physbase, physfree);
    forall f | s.lo <= f < s.hi
      ensures InWindow(s, f)
    {
      RunPlaces(b, s1, b.kroot, KernPage(b.lo), b.lo, b.hi - b.lo, f);
      RunPlaces(s1, s, b.kroot, KernPage(VIDEO / 4096), VIDEO / 4096, 2, f);
    }
    assert InWindow(s, s.kroot);
    KernelAddress(KernPage(s.kroot));
    PageNeedsHalf(s.mem, s.kroot, KernPage(s.kroot));
  }

  /** A frame that is mapped at its kernel page is mapped byte by byte. */
  lemma PlacedMaps(m: Memory, r: nat, a: nat)
    requires a < 0x8000_0000 && Follow(m, r, Page(KernPage(a / 4096))) == Some(a / 4096)
    ensures KernelMaps(m, r, a)
  {
    hide Follow, Page;
    var w: Word := 0xffff_ffff_8000_0000 + a;
    assert w / 4096 == KernPage(a / 4096) / 4096 && w % 4096 == a % 4096;
    SamePage(w, KernPage(a / 4096));
    KernelAddress(w);
  }

  /** What is mapped at KERNBASE when the kernel switches to its own tables: the two pages of video
      memory, and everything from the image through the list. */
  predicate ConsoleOrImage(a: nat, lo: nat, hi: nat) {
    0xb_8000 <= a < 0xb_a000 || 4096 * lo <= a < 4096 * hi
  }

  lemma BootedMaps(b: Space, s1: Space, s: Space, physbase: Word, physfree: Word, a: nat)
    requires Booted(b, s1, s, physbase, physfree) && Placement(b, physfree) && ConsoleOrImage(a, s.lo, s.hi)
    ensures KernelMaps(s.mem, s.kroot, a)
  {
    hide Booted, BootInv, Page, RunMapped, GoodRun, UserOk, Follow;
    var f := a / 4096;
    BootedRoots(b, s1, s, physbase, physfree);
    BootedLow(b, s1, s, physbase, physfree);
    RunPlaces(b, s1, b.kroot, KernPage(b.lo), b.lo, b.hi - b.lo, f);
    RunPlaces(s1, s, b.kroot, KernPage(VIDEO / 4096), VIDEO / 4096, 2, f);
    PlacedMaps(s.mem, s.kroot, a);
  }

  lemma BootedLow(b: Space, s1: Space, s: Space, physbase: Word, physfree: Word)
    requires Booted(b, s1, s, physbase, physfree)
    ensures b.lo <= physfree / 4096
  {
  }

  /** A run at and above KERNBASE leaves the rest of the address space alone. */
  lemma RunSparesUser(s: Space, s': Space, r: nat, v: Word, fs: seq<nat>, u: Trail)
    requires RunMapped(s, s', r, v, fs) && IsRoot(s.tables, r) && GoodRun(v, |fs|) && v >= KERNBASE
    requires u.Legal() && u.Depth() == 4 && u.Head() < SELF
    ensures Follow(s'.mem, r, u) == Follow(s.mem, r, u)
  {
    hide Page, Follow;
    forall i | 0 <= i < |fs|
      ensures u != Page(PageAt(v, i))
    {
      KernelAddress(PageAt(v, i));
    }
    PlacedAt(v, fs, |fs|, u);
    assert RunChange(s.mem, s'.mem, r, v, fs, r, u);
  }

  /** Booting maps nothing below slot 510. */
  lemma NoUserPages(b: Space, s1: Space, s: Space, physbase: Word, physfree: Word, u: Trail)
    requires Booted(b, s1, s, physbase, physfree) && b.hi + 200 < WINDOW_LIMIT
    requires u.Legal() && u.Depth() == 4 && u.Head() < SELF
    ensures Follow(s.mem, s.kroot, u) == None
  {
    hide BootInv, RunMapped, GoodRun, UserOk, BootOutcome, Follow;
    BootedRoots(b, s1, s, physbase, physfree);
    RunSparesUser(b, s1, b.kroot, KernPage(b.lo), Region(b.lo, b.hi - b.lo), u);
    RunSparesUser(s1, s, b.kroot, KernPage(VIDEO / 4096), Region(VIDEO / 4096, 2), u);
    assert Follow(b.mem, b.kroot, u) == None;
  }

  lemma OneRoot(b: Space, s1: Space, s: Space, physbase: Word, physfree: Word, r: nat)
    requires Booted(b, s1, s, physbase, physfree) && b.hi + 200 < WINDOW_LIMIT && IsRoot(s.tables, r)
    ensures r == s.kroot
  {
    hide BootInv, GoodRun, UserOk, BootOutcome, RunChange;
    BootedRoots(b, s1, s, physbase, physfree);
  }

  lemma BootUserData(b: Space, s1: Space, s: Space, physbase: Word, physfree: Word, top: Word)
    requires Booted(b, s1, s, physbase, physfree) && b.hi + 200 < WINDOW_LIMIT
    ensures UserData(System(s, s.kroot, top))
  {
    hide Booted, DataFrame;
    forall r, u: Trail | IsRoot(s.tables, r) && u.Legal() && u.Depth() == 4 && u.Head() < SELF
      ensures LeadsToData(s, r, u)
    {
      OneRoot(b, s1, s, physbase, physfree, r);
      NoUserPages(b, s1, s, physbase, physfree, u);
    }
  }

  lemma AboveIsFree(b: Space, s1: Space, s: Space, physbase: Word, physfree: Word, w: Word)
    requires Booted(b, s1, s, physbase, physfree) && Placement(b, physfree) && w >= KERNBASE + 4096 * (b.hi + 189)
    ensures Unmapped(s, w)
  {
    hide BootInv, Page, RunMapped, GoodRun, UserOk, BootOutcome, ListPages;
    BootedRoots(b, s1, s, physbase, physfree);
    KernelAddress(w);
    RunSpares(b, s1, b.kroot, KernPage(b.lo), b.lo, b.hi - b.lo, w);
    RunSpares(s1, s, b.kroot, KernPage(VIDEO / 4096), VIDEO / 4096, 2, w);
    BareAt(b, w);
  }

  lemma BareAt(s: Space, w: Word)
    requires Bare(s) && I4(w) == KERNEL_HALF
    ensures Follow(s.mem, s.kroot, Page(w)) == None
  {
    hide Page, Follow;
  }

  /** Nothing is mapped from 189 pages above the window on. */
  lemma HeapStarts(b: Space, s1: Space, s: Space, physbase: Word, physfree: Word, top: Word)
    requires Booted(b, s1, s, physbase, physfree) && Placement(b, physfree)
    requires top == KERNBASE + 4096 * (b.hi + 189)
    ensures HeapOk(s, top)
  {
    hide Booted, Placement, Unmapped;
    forall w: Word | w >= top
      ensures Unmapped(s, w)
    {
      AboveIsFree(b, s1, s, physbase, physfree, w);
    }
  }

  /** The pages that start maps with its first call: from physbase up to ten pages past the list. */
  function ImagePages(physbase: Word, physfree: Word, n: nat): nat {
    if physbase <= physfree then physfree / 4096 + ListPages(n) + 11 - physbase / 4096 else 0
  }

  /** The table paths that both calls need. */
  function BootDirs(physbase: Word, physfree: Word, n: nat): set<Trail> {
    RunDirs(KernPage(physbase / 4096), ImagePages(physbase, physfree, n)) + RunDirs(KernPage(VIDEO / 4096), 2)
  }

  /** What start needs of the machine: a memory map that append_free_list can take, pages on the list
      that read as zero where it does not clear them, physfree on a page boundary, the whole image
      below 2 GiB, and frames for the kernel's tables, the first of them in the region of physfree. */
  ghost predicate CanStart(m: Memory, smap: seq<Smap>, physbase: Word, physfree: Word) {
    && physbase <= physfree && 0 < physfree < 0x10_0000_0000_0000 && physfree % 4096 == 0
    && SmapFits(smap, physfree)
    && var found := FoundIn(smap, |smap|, physfree); var l := ListPages(|found.frames|);
      && ZeroTails(m, found.frames)
      && l < found.first
      && physfree / 4096 + l + 211 < WINDOW_LIMIT
      && l + 1 + |BootDirs(physbase, physfree, |found.frames|)| <= |found.frames|
  }

  lemma FirstFrame(found: Found, physfree: Word)
    requires FoundOk(found, physfree) && physfree % 4096 == 0 && ListPages(|found.frames|) < found.first
    ensures var l := ListPages(|found.frames|); l < |found.frames| && found.frames[l] == physfree / 4096 + l
  {
    assert RoundUp(physfree) == physfree;
  }

  /** The addresses that start passes to map_all_kernel_pages. */
  lemma ImageAddresses(physbase: Word, physfree: Word, l: nat)
    requires physbase <= physfree && physfree % 4096 == 0 && physfree / 4096 + l + 211 < WINDOW_LIMIT
    ensures KERNBASE + physfree + (l * PAGESIZE + 10 * PAGESIZE) == KERNBASE + 4096 * (physfree / 4096 + l + 10)
    ensures (KERNBASE + physbase) / 4096 * 4096 == KernPage(physbase / 4096)
    ensures PagesThrough(KernPage(physbase / 4096), KERNBASE + 4096 * (physfree / 4096 + l + 10))
            == physfree / 4096 + l + 11 - physbase / 4096
    ensures KERNBASE + physfree + l * PAGESIZE + 200 * PAGESIZE == KERNBASE + 4096 * (physfree / 4096 + l + 200)
  {
    assert physfree == 4096 * (physfree / 4096);
    assert physbase / 4096 <= physfree / 4096;
  }

  /** What the first call of map_all_kernel_pages needs. */
  lemma CanBootImage(b: Space, physbase: Word, physfree: Word)
    requires Bare(b) && Placement(b, physfree) && physbase <= physfree && b.lo == physbase / 4096
    requires b.pos == ListPages(|b.frames|) + 1 && b.pos + |BootDirs(physbase, physfree, |b.frames|)| <= |b.frames|
    ensures b.lo <= physfree / 4096 && b.hi - b.lo == ImagePages(physbase, physfree, |b.frames|)
    ensures CanBoot(b, b.kroot, KernPage(b.lo), b.lo, b.hi - b.lo)
  {
    hide Bare, BootInv, HalfOk, RunDirs, GoodRun;
    BareIsBuilding(b);
    RootOfBoot(b);
    var n: nat := b.hi - b.lo;
    KernelRun(KernPage(b.lo), n);
    var d1, d2 := RunDirs(KernPage(b.lo), n), RunDirs(KernPage(VIDEO / 4096), 2);
    SubsetSize(d1, d1 + d2);
    SubsetSize(Absent(b.mem, b.kroot, d1), d1);
  }

  /** What the second call needs, once the first has made its tables. */
  lemma CanBootVideo(b: Space, s1: Space, physbase: Word, physfree: Word)
    requires Bare(b) && Placement(b, physfree) && physbase <= physfree && b.lo == physbase / 4096 && b.lo <= b.hi
    requires b.hi - b.lo == ImagePages(physbase, physfree, |b.frames|)
    requires b.pos == ListPages(|b.frames|) + 1 && b.pos + |BootDirs(physbase, physfree, |b.frames|)| <= |b.frames|
    requires BootOutcome(b, s1, b.kroot, KernPage(b.lo), b.lo, b.hi - b.lo, RunDirs(KernPage(b.lo), b.hi - b.lo))
    ensures CanBoot(s1, b.kroot, KernPage(VIDEO / 4096), VIDEO / 4096, 2)
    ensures s1.pos + |Absent(s1.mem, b.kroot, RunDirs(KernPage(VIDEO / 4096), 2))|
              <= b.pos + |BootDirs(physbase, physfree, |b.frames|)|
    ensures s1.kroot == b.kroot && s1.frames == b.frames
  {
    hide Bare, BootInv, HalfOk, RunDirs, GoodRun, NewTablesTaken, RunChange, UserOk, Absent, KernPage;
    var r, d1, d2 := b.kroot, RunDirs(KernPage(b.lo), b.hi - b.lo), RunDirs(KernPage(VIDEO / 4096), 2);
    RootOfBoot(b);
    VideoRun();
    TablesToMake(b.mem, r, d1);
    TablesLeft(s1.mem, r, d1, d2);
  }

  lemma VideoRun()
    ensures GoodRun(KernPage(VIDEO / 4096), 2)
  {
    KernelRun(KernPage(VIDEO / 4096), 2);
  }

  lemma TablesToMake(m: Memory, r: nat, ts: set<Trail>)
    ensures |Absent(m, r, ts)| <= |ts|
  {
    SubsetSize(Absent(m, r, ts), ts);
  }

  /** Once a first run has its tables, a second one lacks at most those that only it has. */
  lemma TablesLeft(m: Memory, r: nat, d1: set<Trail>, d2: set<Trail>)
    requires Absent(m, r, d1) == {}
    ensures |d1| + |Absent(m, r, d2)| <= |d1 + d2|
  {
    assert Absent(m, r, d2) <= d2 - d1 by {
      forall t | t in Absent(m, r, d2)
        ensures t !in d1
      {
        assert t !in Absent(m, r, d1);
      }
    }
    SubsetSize(Absent(m, r, d2), d2 - d1);
    assert d1 + d2 == d1 + (d2 - d1);
  }

  /** The entry in slot 511 keeps users out: it was zero, and booting set no U/S bit. */
  lemma StartGuards(b: Space, s1: Space, s: Space)
    requires Bare(b) && b.lo <= b.hi < WINDOW_LIMIT
    requires s1 == BootRun(b, b.kroot, KernPage(b.lo), b.lo, b.hi - b.lo)
    requires s == BootRun(s1, b.kroot, KernPage(VIDEO / 4096), VIDEO / 4096, 2)
    ensures !UserBit(Read(s.mem, b.kroot, KERNEL_HALF))
  {
    hide BootRun, BootInv;
    var m, m1, m2 := b.mem, s1.mem, s.mem;
    BootRunGuards(b, b.kroot, KernPage(b.lo), b.lo, b.hi - b.lo);
    BootRunGuards(s1, b.kroot, KernPage(VIDEO / 4096), VIDEO / 4096, 2);
    KernelWritesThen(m, m1, m2);
    var w := Read(m2, b.kroot, KERNEL_HALF);
    assert w == Read(m, b.kroot, KERNEL_HALF) || w == 1 || w % 4096 == PAGE_KERNEL;
  }

  lemma {:induction false} RunDirsSize(v: Word, n: nat)
    ensures |RunDirs(v, n)| <= 3 * n
  {
    if n > 0 {
      var k: nat := n - 1;
      RunDirsSize(v, k);
      RunDirsGrow(v, k);
      UnionSize(RunDirs(v, k), Dirs(PageAt(v, k)));
      ThreeDirs(PageAt(v, k));
    }
  }

  lemma UnionSize<T>(a: set<T>, b: set<T>)
    ensures |a + b| <= |a| + |b|
  {
    assert a + b == a + (b - a);
    SubsetSize(b - a, b);
  }

  lemma ThreeDirs(v: Word)
    ensures |Dirs(v)| <= 3
  {
    UnionSize({Dir3(v)}, {Dir2(v)});
    UnionSize({Dir3(v)} + {Dir2(v)}, {Dir1(v)});
    assert Dirs(v) == {Dir3(v)} + {Dir2(v)} + {Dir1(v)};
  }

  /** A machine on which start works: 128 MiB, the kernel image from 2 to 3 MiB, zeroes behind it but for
      the first 512 bytes of each page; and how many frames it has and needs. */
  lemma SomeMachineStarts(m: Memory)
    requires forall f: nat, i: nat :: 0x300 <= f && 64 <= i ==> Read(m, f, i) == 0
    ensures CanStart(m, [Smap(0, 0x800_0000, 1)], 0x20_0000, 0x30_0000)
    ensures |FoundIn([Smap(0, 0x800_0000, 1)], 1, 0x30_0000).frames| == 32000 && ListPages(32000) == 188
    ensures |BootDirs(0x20_0000, 0x30_0000, 32000)| <= 1371
  {
    hide RunDirs, KernPage;
    var e := Smap(0, 0x800_0000, 1);
    var found := Add(Found([], 0), 0, 0x800_0000, 0x30_0000);
    assert FoundIn([e], 0, 0x30_0000) == Found([], 0);
    assert found == Found(Region(0x300, 0x7d00), 0x7d00);
    assert EntryFits([e], 0, 0x30_0000);
    assert FoundIn([e], 1, 0x30_0000) == found;
    assert |found.frames| == 32000 && ListPages(32000) == 188;
    var n := ImagePages(0x20_0000, 0x30_0000, 32000);
    assert n == 0x300 + 188 + 11 - 0x200;
    RunDirsSize(KernPage(0x200), n);
    RunDirsSize(KernPage(VIDEO / 4096), 2);
    UnionSize(RunDirs(KernPage(0x200), n), RunDirs(KernPage(VIDEO / 4096), 2));
  }

  /** start up to create_kernel_pml4: the list is built and the first PML4 taken from it. */
  method MakeFirstRoot(k: Kernel, smap: seq<Smap>, ghost physbase: Word, physfree: Word) returns (kernelCr3: Word)
    requires CanStart(k.mem, smap, physbase, physfree)
    modifies k
    ensures Bare(k.View()) && Building(k) && Placement(k.View(), physfree) && k.lo == physbase / 4096
    ensures kernelCr3 == 4096 * k.kroot && k.frames == FoundIn(smap, |smap|, physfree).frames
    ensures k.freeListPageLength == ListPages(|k.frames|) && k.pos == ListPages(|k.frames|) + 1
    ensures k.pos + |BootDirs(physbase, physfree, |k.frames|)| <= |k.frames|
    ensures OnlyTables(k.View(), ListPages(|k.frames|)) && SameBelow(old(k.mem), k.mem, physfree / 4096)
  {
    hide FoundIn, SmapFits, SmapRoom, FoundOk, Chain, Cleared, ListReady, Bare, BootInv, HalfOk, BootDirs, OnlyTables;
    hide SameBelow, ZeroTails, AllAbove;
    ghost var m := k.mem;
    ghost var found := FoundIn(smap, |smap|, physfree);
    FitsHasRoom(smap, physfree);
    FoundInOk(smap, |smap|, physfree);
    ReadMemoryMap(k, smap, physfree);
    SetFreeListHead(k);
    k.lo, k.hi := physbase / 4096, physfree / 4096 + k.pos + 11;
    FirstFrame(found, physfree);
    ListIsReady(m, k.View(), found, physfree);
    FramesAboveFree(smap, physfree);
    ClearedBelow(m, k.mem, physfree, k.frames);
    ghost var s := k.View();
    kernelCr3 := CreateKernelPml4(k);
    FirstAccount(s);
    FirstRootBelow(s, physfree / 4096);
    SameBelowThen(m, s.mem, k.mem, physfree / 4096);
  }

  /** Taking the frame and making it a PML4 writes above physfree only. */
  lemma FirstRootBelow(s: Space, first: nat)
    requires s.pos < |s.frames| && first <= s.frames[s.pos] < FRAME_LIMIT && first <= s.base / 4096
    ensures SameBelow(s.mem, FirstRoot(Popped(s), s.frames[s.pos]).mem, first)
  {
  }

  /** The frame taken for the first PML4 is the first table. */
  lemma FirstAccount(s: Space)
    requires s.pos < |s.frames| && s.frames[s.pos] < FRAME_LIMIT
    ensures OnlyTables(FirstRoot(Popped(s), s.frames[s.pos]), s.pos)
  {
    var t := FirstRoot(Popped(s), s.frames[s.pos]);
    assert t.frames[s.pos] == s.frames[s.pos];
  }

  /** The two calls of map_all_kernel_pages. */
  method MapBoot(k: Kernel, physbase: Word, physfree: Word, freeListPageLength: nat) returns (ghost s1: Space)
    requires Bare(k.View()) && Building(k) && Placement(k.View(), physfree) && k.lo == physbase / 4096
             && physbase <= physfree
    requires freeListPageLength == ListPages(|k.frames|) && k.pos == ListPages(|k.frames|) + 1
    requires k.pos + |BootDirs(physbase, physfree, |k.frames|)| <= |k.frames|
    modifies k`mem, k`tables, k`freeListHead, k`pos
    ensures Building(k) && Booted(old(k.View()), s1, k.View(), physbase, physfree)
    ensures k.pos <= old(k.pos) + |BootDirs(physbase, physfree, |k.frames|)|
    ensures forall l :: OnlyTables(old(k.View()), l) ==> OnlyTables(k.View(), l)
  {
    hide Bare, BootInv, HalfOk, RunDirs, BootOutcome, CanBoot, BootRun, KernPage, BootDirs, ImagePages, OnlyTables;
    ghost var b := k.View();
    ImageAddresses(physbase, physfree, freeListPageLength);
    VideoAddresses();
    CanBootImage(b, physbase, physfree);
    MapAllKernelPages(k, KERNBASE + physbase, KERNBASE + physfree + (freeListPageLength * PAGESIZE + 10 * PAGESIZE),
                      physbase);
    s1 := k.View();
    CanBootVideo(b, s1, physbase, physfree);
    MapAllKernelPages(k, KERNBASE + VIDEO, KERNBASE + VIDEO + PAGESIZE, VIDEO);
    StartGuards(b, s1, k.View());
    RunAccount(b, s1, b.kroot, KernPage(b.lo), b.lo, b.hi - b.lo);
    RunAccount(s1, k.View(), b.kroot, KernPage(VIDEO / 4096), VIDEO / 4096, 2);
  }

  /** A run mapped while booting adds its frames to the account. */
  lemma RunAccount(s: Space, s': Space, r: nat, v: Word, p: nat, n: nat)
    requires CanBoot(s, r, v, p, n) && s' == BootRun(s, r, v, p, n)
    ensures forall l :: OnlyTables(s, l) ==> OnlyTables(s', l)
  {
    hide CanBoot, BootRun, BootInv, HalfOk, RunChange, UserOk, OnlyTables, AllTables;
    BootTakes(s, r, v, p, n, n);
    BootRunOutcome(s, r, v, p, n, n);
    forall l: nat | OnlyTables(s, l)
      ensures OnlyTables(s', l)
    {
      BootAccount(s, s', l);
    }
  }

  lemma VideoAddresses()
    ensures (KERNBASE + VIDEO) / 4096 * 4096 == KernPage(VIDEO / 4096)
    ensures PagesThrough(KernPage(VIDEO / 4096), KERNBASE + VIDEO + PAGESIZE) == 2
  {
  }

  /** What start leaves behind: the invariant of the running kernel. */
  lemma StartsGood(b: Space, s1: Space, s: Space, physbase: Word, physfree: Word, top: Word)
    requires Booted(b, s1, s, physbase, physfree) && Placement(b, physfree) && top == KERNBASE + 4096 * (b.hi + 189)
    ensures Inv(s) && IsRoot(s.tables, s.kroot) && s.kroot < FRAME_LIMIT && Good(System(s, s.kroot, top))
    ensures UserData(System(s, s.kroot, top))
  {
    hide Inv, HeapOk, UserOk, UserData;
    BootedRoots(b, s1, s, physbase, physfree);
    WindowMade(b, s1, s, physbase, physfree);
    HeapStarts(b, s1, s, physbase, physfree, top);
    BootUserData(b, s1, s, physbase, physfree, top);
  }

  /** The two calls of map_all_kernel_pages write to tables and to the list only. */
  lemma BootedBelow(b: Space, s1: Space, s: Space, physbase: Word, physfree: Word, l: nat)
    requires Booted(b, s1, s, physbase, physfree) && Placement(b, physfree) && OnlyTables(s, l)
    requires AllAbove(s.frames, physfree / 4096)
    ensures SameBelow(b.mem, s.mem, physfree / 4096)
  {
    hide BootInv, HalfOk, Absent, RunChange, UserOk, NewTablesTaken, RunDirs, Region, Bare;
    BootedRoots(b, s1, s, physbase, physfree);
    forall f: nat, i: nat | f < physfree / 4096
      ensures Read(s.mem, f, i) == Read(b.mem, f, i)
    {
      assert !HandedOut(s, l, f);
      assert f !in s.tables && f !in s1.tables;
      assert !ListFrame(b, f) && !ListFrame(s1, f);
    }
  }

  /** The kernel moves to its own tables and sets its heap up. */
  method SwitchOver(k: Kernel, kernelCr3: Word, freeListPageLength: nat, ghost b: Space, ghost s1: Space,
                    ghost physbase: Word, physfree: Word)
    requires Building(k) && Booted(b, s1, k.View(), physbase, physfree)
    requires Placement(b, physfree) && physbase <= physfree
    requires kernelCr3 == 4096 * k.kroot && freeListPageLength == ListPages(|k.frames|) && k.frames == b.frames
    modifies k`cr3, k`freeListHeadKmalloc, k`topVirtualAddress
    ensures k.Valid() && Good(System(k.View(), k.Pml4(), k.topVirtualAddress))
    ensures UserData(System(k.View(), k.Pml4(), k.topVirtualAddress))
    ensures k.hi == physfree / 4096 + freeListPageLength + 11 && k.topVirtualAddress == KERNBASE + 4096 * (k.hi + 189)
    ensures forall a {:trigger KernelMaps(k.mem, k.Pml4(), a)} :: ConsoleOrImage(a, k.lo, k.hi) ==>
              KernelMaps(k.mem, k.Pml4(), a)
  {
    hide KernelMaps, ConsoleOrImage;
    hide UserData, Bare, BootInv, HalfOk, Good, Inv, BootOutcome, Booted, ListPages;
    ImageAddresses(physbase, physfree, freeListPageLength);
    BootedSame(b, s1, k.View(), physbase, physfree);
    k.cr3 := kernelCr3;
    k.freeListHeadKmalloc := KERNBASE + k.freeListHead;
    k.topVirtualAddress := KERNBASE + physfree + freeListPageLength * PAGESIZE + 200 * PAGESIZE;
    StartsGood(b, s1, k.View(), physbase, physfree, k.topVirtualAddress);
    forall a | ConsoleOrImage(a, k.lo, k.hi)
      ensures KernelMaps(k.mem, k.Pml4(), a)
    {
      BootedMaps(b, s1, k.View(), physbase, physfree, a);
    }
  }

  /** start, up to the point where the kernel runs on its own tables with its heap set up. */
  method Start(k: Kernel, smap: seq<Smap>, physbase: Word, physfree: Word)
    requires CanStart(k.mem, smap, physbase, physfree)
    modifies k
    ensures k.Valid() && Good(System(k.View(), k.Pml4(), k.topVirtualAddress))
    ensures UserData(System(k.View(), k.Pml4(), k.topVirtualAddress))
    ensures k.frames == FoundIn(smap, |smap|, physfree).frames
    ensures k.pos <= ListPages(|k.frames|) + 1 + |BootDirs(physbase, physfree, |k.frames|)|
    ensures k.lo == physbase / 4096 && k.hi == physfree / 4096 + ListPages(|k.frames|) + 11
    ensures k.topVirtualAddress == KERNBASE + 4096 * (k.hi + 189) && k.base == physfree
    ensures OnlyTables(k.View(), ListPages(|k.frames|)) && AllAbove(k.frames, physfree / 4096)
    ensures SameBelow(old(k.mem), k.mem, physfree / 4096)
    ensures forall a {:trigger KernelMaps(k.mem, k.Pml4(), a)} :: ConsoleOrImage(a, k.lo, k.hi) ==>
              KernelMaps(k.mem, k.Pml4(), a)
  {
    hide OnlyTables, UserData, FoundIn, Bare, BootInv, HalfOk, Good, BootDirs, Inv, BootOutcome, Booted, CanStart;
    hide RunDirs, KernPage, ListPages, PagesThrough, SameBelow, AllAbove;
    InOrder(k.mem, smap, physbase, physfree);
    ghost var m := k.mem;
    var kernelCr3 := MakeFirstRoot(k, smap, physbase, physfree);
    ghost var b := k.View();
    var freeListPageLength := k.freeListPageLength;
    ghost var s1 := MapBoot(k, physbase, physfree, freeListPageLength);
    ghost var s := k.View();
    BootedSame(b, s1, s, physbase, physfree);
    FramesAboveFree(smap, physfree);
    BootedBelow(b, s1, s, physbase, physfree, freeListPageLength);
    SameBelowThen(m, b.mem, s.mem, physfree / 4096);
    SwitchOver(k, kernelCr3, freeListPageLength, b, s1, physbase, physfree);
  }

  lemma FramesAboveFree(smap: seq<Smap>, physfree: Word)
    requires physfree % 4096 == 0
    ensures AllAbove(FoundIn(smap, |smap|, physfree).frames, physfree / 4096)
  {
    assert RoundUp(physfree) == physfree;
    FoundAbove(smap, |smap|, physfree);
  }

  lemma InOrder(m: Memory, smap: seq<Smap>, physbase: Word, physfree: Word)
    requires CanStart(m, smap, physbase, physfree)
    ensures physbase <= physfree
  {
  }

  lemma BootedSame(b: Space, s1: Space, s: Space, physbase: Word, physfree: Word)
    requires Booted(b, s1, s, physbase, physfree) && Placement(b, physfree)
    ensures s.kroot == b.kroot && s.lo == b.lo && s.hi == b.hi && s.base == b.base && s.frames == b.frames
    ensures BelowWindow(s)
  {
    BootedRoots(b, s1, s, physbase, physfree);
  }

  /** The head of the list has a kernel address. */
  predicate BelowWindow(s: Space) {
    s.pos < |s.frames| ==> NodeAddress(s, s.pos) < 0x8000_0000
  }
}
