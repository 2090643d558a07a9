/** sys/paging.c: the kmalloc family, and the creation of address spaces. */
module Heap {
  import opened Words
  import opened Mmu
  import opened PageTree
  import opened AddressSpace
  import opened Mapping
  import opened Ranges
  import opened Entries
  import opened Spaces
  import opened Paging

  /** How many pages at the start of the run are not mapped yet; the loop stops there. */
  function FreePrefix(m: Memory, r: nat, v: Word, n: nat): (j: nat)
    ensures j <= n
    ensures forall i :: 0 <= i < j ==> Follow(m, r, Page(PageAt(v, i))) == None
    ensures j < n ==> Follow(m, r, Page(PageAt(v, j))).Some?
  {
    if n == 0 then 0
    else
      var j := FreePrefix(m, r, v, n - 1);
      if j == n - 1 && Follow(m, r, Page(PageAt(v, n - 1))) == None then n else j
  }

  /** What the loop needs: frames for the pages it maps, and one more if it then meets a mapped page. */
  ghost predicate CanAllocate(s: Space, r: nat, v: Word, n: nat, flags: Word) {
    && Flags(flags) && GoodRun(v, n)
    && var j := FreePrefix(s.mem, r, v, n);
       CanMapRun(s, r, v, j, flags) && (j < n ==> MapRun(s, r, v, j, flags).pos < |s.frames|)
  }

  /** The space that the loop leaves behind. */
  function Allocated(s: Space, r: nat, v: Word, n: nat, flags: Word): Space
    requires Flags(flags)
  {
    var j := FreePrefix(s.mem, r, v, n);
    if j < n then Popped(MapRun(s, r, v, j, flags)) else MapRun(s, r, v, n, flags)
  }

  /** The frames that the loop takes for pages: those it maps, and the one that it has in hand when it
      meets a mapped page. */
  function AllocatedFrames(s: Space, r: nat, v: Word, n: nat, flags: Word): (fs: seq<nat>)
    requires Flags(flags)
    ensures var j := FreePrefix(s.mem, r, v, n); |fs| == if j < n then j + 1 else n
  {
    var j := FreePrefix(s.mem, r, v, n);
    RunFrames(s, r, v, j, flags) + if j < n then [HeadFrame(MapRun(s, r, v, j, flags))] else []
  }

  /** The loop maps the free pages before the first mapped one, moves nothing else in any address
      space, and keeps the invariant. */
  lemma AllocatedOutcome(s: Space, r: nat, v: Word, n: nat, flags: Word)
    requires CanAllocate(s, r, v, n, flags)
    ensures var s' := Allocated(s, r, v, n, flags);
            && Inv(s') && NewTablesTaken(s, s')
            && RunMapped(s, s', r, v, RunFrames(s, r, v, FreePrefix(s.mem, r, v, n), flags))
  {
    hide MapRun, RunFrames, Inv, RunChange, NewTablesTaken;
    var j := FreePrefix(s.mem, r, v, n);
    RunOutcome(s, r, v, j, flags);
    if j < n {
      FrameLost(s, MapRun(s, r, v, j, flags), r, v, RunFrames(s, r, v, j, flags));
    }
  }

  /** A frame taken and not mapped changes nothing. */
  lemma FrameLost(s: Space, s1: Space, r: nat, v: Word, fs: seq<nat>)
    requires RunMapped(s, s1, r, v, fs) && NewTablesTaken(s, s1) && Inv(s1) && s1.pos < |s1.frames|
    ensures Inv(Popped(s1)) && RunMapped(s, Popped(s1), r, v, fs) && NewTablesTaken(s, Popped(s1))
  {
    hide RunChange;
    var s2 := Popped(s1);
    PopKeeps(s1);
    PopExtends(s1, r, v);
    TakenThen(s, s1, s2);
    forall q, u: Trail | IsRoot(s.tables, q) && u.Legal() && u.Depth() == 4
      ensures RunChange(s.mem, s2.mem, r, v, fs, q, u)
    {
      assert RunChange(s.mem, s1.mem, r, v, fs, q, u);
      assert Follow(s2.mem, q, u) == Follow(s1.mem, q, u);
      SameChange(s.mem, s1.mem, s2.mem, r, v, fs, q, u);
    }
  }

  lemma SameChange(m: Memory, m1: Memory, m2: Memory, r: nat, v: Word, fs: seq<nat>, q: nat, u: Trail)
    requires u.Down? && RunChange(m, m1, r, v, fs, q, u) && Follow(m2, q, u) == Follow(m1, q, u)
    ensures RunChange(m, m2, r, v, fs, q, u)
  {
    hide Follow, Placed;
  }

  lemma PopExtends(s: Space, r: nat, v: Word)
    requires BootInv(s) && s.pos < |s.frames|
    ensures Extends(s, Popped(s)) && NewTablesTaken(s, Popped(s))
    ensures forall q, u: Trail {:trigger Follow(Popped(s).mem, q, u)} ::
            IsRoot(s.tables, q) && u.Legal() && u.Depth() <= 4 ==>
              Follow(Popped(s).mem, q, u) == Follow(s.mem, q, u)
  {
    PopLinks(s, r, v, PAGE_KERNEL);
  }

  /** One round of the loop on a page that is mapped takes a frame and leaves the rest. */
  lemma RoundReady(s: Space, r: nat, v: Word, n: nat, flags: Word, i: nat)
    requires CanAllocate(s, r, v, n, flags) && i < n && i <= FreePrefix(s.mem, r, v, n)
    ensures var s1, w := MapRun(s, r, v, i, flags), PageAt(v, i);
            && Inv(s1) && IsRoot(s1.tables, r) && s1.pos < |s1.frames| && CanMap(Popped(s1), r, w, HeadFrame(s1), flags)
            && Follow(Popped(s1).mem, r, Page(w)) == Follow(s.mem, r, Page(w))
            && MapRun(s, r, v, i + 1, flags) == MapDirect(Popped(s1), r, w, HeadFrame(s1), flags)
            && v + 4096 * (i + 1) < WORD_LIMIT && w == v + 4096 * i
  {
    hide MapNext, MapDirect, MapRun;
    var j := FreePrefix(s.mem, r, v, n);
    var s1, w := MapRun(s, r, v, i, flags), PageAt(v, i);
    RunAdvances(s, r, v, j, flags, i);
    RunOutcome(s, r, v, i, flags);
    RunStepDirect(s, r, v, i, flags);
    NextPageFree(s, s1, r, v, i, flags);
    if i < j {
      assert RoundOk(s, r, v, flags, i);
      RoundOutcome(s1, r, w, flags);
    } else {
      MappedRound(s1, r, w, flags);
    }
  }

  lemma NextPageFree(s: Space, s1: Space, r: nat, v: Word, i: nat, flags: Word)
    requires Flags(flags) && GoodRun(v, i + 1) && IsRoot(s.tables, r)
    requires RunMapped(s, s1, r, v, RunFrames(s, r, v, i, flags))
    ensures Follow(s1.mem, r, Page(PageAt(v, i))) == Follow(s.mem, r, Page(PageAt(v, i)))
  {
    hide RunFrames;
    PageStillFree(s, s1, r, v, RunFrames(s, r, v, i, flags), i + 1);
  }

  lemma FrameOfAddress(f: nat)
    ensures 4096 * f / 4096 == f && 4096 * f % 4096 == 0
  {
  }

  lemma RunZero(s: Space, r: nat, v: Word, flags: Word)
    requires Flags(flags)
    ensures MapRun(s, r, v, 0, flags) == s
  {
  }

  lemma RunStepDirect(s: Space, r: nat, v: Word, i: nat, flags: Word)
    requires Flags(flags)
    ensures var s1 := MapRun(s, r, v, i, flags);
            MapRun(s, r, v, i + 1, flags) == MapDirect(Popped(s1), r, PageAt(v, i), HeadFrame(s1), flags)
  {
    RunStep(s, r, v, i, flags);
  }

  lemma MappedRound(s: Space, r: nat, v: Word, flags: Word)
    requires Inv(s) && IsRoot(s.tables, r) && I4(v) != SELF && Flags(flags) && s.pos < |s.frames|
    requires Follow(s.mem, r, Page(v)).Some?
    ensures CanMap(Popped(s), r, v, HeadFrame(s), flags)
    ensures Follow(Popped(s).mem, r, Page(v)) == Follow(s.mem, r, Page(v))
  {
    PopLinks(s, r, v, flags);
    PopKeeps(s);
    var m' := Popped(s).mem;
    assert Follow(m', r, Page(v)) == Follow(s.mem, r, Page(v));
    assert Follow(m', r, Dir1(v)).Some?;
    assert Follow(m', r, Dir2(v)).Some?;
  }

  /** The loop of kmalloc, kmalloc_user and kmalloc_top_virtual_address_*: they differ in the
      number of pages, in the flags, and in whether they move top_virtual_address along. */
  method AllocatePages(k: Kernel, top: Word, n: nat, flags: Word, bump: bool) returns (result: Word)
    requires Flags(flags)
    requires k.freeListHeadKmalloc == 0 || (k.Valid() && CanAllocate(k.View(), k.Pml4(), top, n, flags))
    requires bump ==> k.topVirtualAddress == top
    modifies k`mem, k`tables, k`freeListHeadKmalloc, k`pos, k`topVirtualAddress
    ensures old(k.freeListHeadKmalloc) == 0 ==>
              result == (if n == 0 then top else 0) && k.mem == old(k.mem)
                && k.topVirtualAddress == old(k.topVirtualAddress)
    ensures old(k.freeListHeadKmalloc) != 0 ==>
              k.Valid() && k.View() == Allocated(old(k.View()), k.Pml4(), top, n, flags)
    ensures old(k.freeListHeadKmalloc) != 0 ==>
              var j := FreePrefix(old(k.mem), k.Pml4(), top, n);
              && result == (if j == n then top else 0)
              && k.topVirtualAddress == old(k.topVirtualAddress) + (if bump then 4096 * j else 0)
  {
    hide Inv, MapDirect, MapNext, MapRun, CanMap, CanAllocate, Outcome;
    hide Missing, Popped, Page, Follow, HeadFrame, FreePrefix;
    ghost var s, r := k.View(), k.Pml4();
    RunZero(s, r, top, flags);
    var vAddr := top;
    for i := 0 to n
      invariant old(k.freeListHeadKmalloc) == 0 ==>
                  i == 0 && k.freeListHeadKmalloc == 0 && k.View() == s
                    && k.topVirtualAddress == old(k.topVirtualAddress)
      invariant old(k.freeListHeadKmalloc) != 0 ==>
                  && k.Valid() && i <= FreePrefix(s.mem, r, top, n) && k.View() == MapRun(s, r, top, i, flags)
                  && vAddr == top + 4096 * i
                  && k.topVirtualAddress == old(k.topVirtualAddress) + (if bump then 4096 * i else 0)
      invariant k.cr3 == old(k.cr3)
    {
      ghost var s1 := k.View();
      if k.freeListHeadKmalloc != 0 {
        RoundReady(s, r, top, n, flags, i);
        FrameOfAddress(HeadFrame(s1));
      }
      var pAddr := k.GetNextFreePageKmalloc();
      if pAddr == 0 {
        return 0;
      }
      var mapped := k.WalkAndMap(pAddr, vAddr, flags);
      if mapped == 0 {
        return 0;
      }
      vAddr := vAddr + PAGESIZE;
      if bump {
        k.topVirtualAddress := k.topVirtualAddress + PAGESIZE;
      }
    }
    result := top;
  }

  // ---- kmalloc and its variants ----

  /** size rounded up to whole pages. */
  function PagesFor(size: Word): (n: nat)
    ensures 4096 * n >= size && 4096 * n < size + 4096
  {
    if size % PAGESIZE != 0 then size / PAGESIZE + 1 else size / PAGESIZE
  }

  /** What a heap allocation of n pages needs: a kernel heap, room below the top of memory, and
      the frames it takes. */
  ghost predicate HeapReady(k: Kernel, n: nat, flags: Word)
    reads k
    requires Flags(flags)
  {
    && k.Valid() && HeapOk(k.View(), k.topVirtualAddress)
    && k.topVirtualAddress + 4096 * n < WORD_LIMIT
    && RunFits(k.View(), k.Pml4(), k.topVirtualAddress, n, flags)
  }

  /** The outcome of a heap allocation: the block [top, top + 4096 n) is mapped, page by page, to
      frames off the list; nothing else moves in any address space; the heap goes on above it. */
  ghost predicate BlockAllocated(s: Space, s': Space, r: nat, top: Word, n: nat, flags: Word)
    requires Flags(flags)
  {
    && s' == MapRun(s, r, top, n, flags)
    && RunMapped(s, s', r, top, RunFrames(s, r, top, n, flags))
    && NewTablesTaken(s, s')
    && top + 4096 * n < WORD_LIMIT && HeapOk(s', top + 4096 * n)
    && (UserOk(s.mem, s.tables) ==> UserOk(s'.mem, s'.tables))
  }

  lemma BlockOutcome(s: Space, r: nat, top: Word, n: nat, flags: Word)
    requires Inv(s) && IsRoot(s.tables, r) && Flags(flags) && HeapOk(s, top)
    requires top + 4096 * n < WORD_LIMIT && RunFits(s, r, top, n, flags)
    ensures CanAllocate(s, r, top, n, flags) && FreePrefix(s.mem, r, top, n) == n
    ensures BlockAllocated(s, MapRun(s, r, top, n, flags), r, top, n, flags)
  {
    hide MapRun, RunFrames, Translate;
    HeapPagesFree(s, r, top, n);
    assert FreePrefix(s.mem, r, top, n) == n;
    assert CanMapRun(s, r, top, n, flags);
    RunOutcome(s, r, top, n, flags);
    HeapGrows(s, MapRun(s, r, top, n, flags), r, top, RunFrames(s, r, top, n, flags));
    if UserOk(s.mem, s.tables) {
      forall i | 0 <= i < n
        ensures MayMap(s, r, PageAt(top, i), flags)
      {
        KernelAddress(PageAt(top, i));
      }
      RunKeepsUser(s, r, top, n, flags);
    }
  }

  /** The page table entries of a block have the U/S bit exactly if the walk was told so. */
  lemma BlockEntries(s: Space, r: nat, top: Word, n: nat, flags: Word)
    requires Inv(s) && IsRoot(s.tables, r) && Flags(flags) && HeapOk(s, top)
    requires top + 4096 * n < WORD_LIMIT && RunFits(s, r, top, n, flags)
    ensures var s' := MapRun(s, r, top, n, flags);
            && EntriesMade(s, s', flags)
            && forall i {:trigger PageAt(top, i)} :: 0 <= i < n ==>
                 (UserBit(LeafEntry(s'.mem, r, PageAt(top, i))) <==> flags == PAGE_USER)
  {
    hide Inv, MapRun, RunFrames, EntriesMade, LeafEntry, RunFits, Follow, Page, HeapOk;
    HeapPagesFree(s, r, top, n);
    RunMade(s, r, top, n, flags);
    var fs := RunFrames(s, r, top, n, flags);
    forall i | 0 <= i < n
      ensures UserBit(LeafEntry(MapRun(s, r, top, n, flags).mem, r, PageAt(top, i))) <==> flags == PAGE_USER
    {
      FlagBit(LeafEntry(MapRun(s, r, top, n, flags).mem, r, PageAt(top, i)), fs[i], flags);
    }
  }

  lemma FlagBit(e: Word, f: nat, flags: Word)
    requires Flags(flags) && e == 4096 * f + flags
    ensures UserBit(e) <==> flags == PAGE_USER
  {
    DivModUnique(e, 4, 1024 * f + flags / 4, 3);
    DivModUnique(1024 * f + flags / 4, 2, 512 * f, flags / 4);
  }

  /** kmalloc: a block of whole pages at the top of the heap. */
  method Kmalloc(k: Kernel, size: Word) returns (block: Word)
    requires HeapReady(k, PagesFor(size), PAGE_KERNEL)
    modifies k`mem, k`tables, k`freeListHeadKmalloc, k`pos, k`topVirtualAddress
    ensures k.Valid() && block == old(k.topVirtualAddress)
    ensures k.topVirtualAddress == block + 4096 * PagesFor(size)
    ensures BlockAllocated(old(k.View()), k.View(), k.Pml4(), block, PagesFor(size), PAGE_KERNEL)
    ensures EntriesMade(old(k.View()), k.View(), 3)
    ensures forall i {:trigger PageAt(block, i)} :: 0 <= i < PagesFor(size) ==>
              !UserBit(LeafEntry(k.mem, k.Pml4(), PageAt(block, i)))
  {
    hide Inv, MapRun, RunFrames, MapNext, EntriesMade, LeafEntry;
    var noOfPages := PagesFor(size);
    BlockEntries(k.View(), k.Pml4(), k.topVirtualAddress, noOfPages, PAGE_KERNEL);
    BlockOutcome(k.View(), k.Pml4(), k.topVirtualAddress, noOfPages, PAGE_KERNEL);
    block := AllocatePages(k, k.topVirtualAddress, noOfPages, PAGE_KERNEL, true);
  }

  /** kmalloc_user: one page more than the size asks for, with the user bit. */
  method KmallocUser(k: Kernel, size: Word) returns (block: Word)
    requires HeapReady(k, PagesFor(size) + 1, PAGE_USER)
    modifies k`mem, k`tables, k`freeListHeadKmalloc, k`pos, k`topVirtualAddress
    ensures k.Valid() && block == old(k.topVirtualAddress)
    ensures k.topVirtualAddress == block + 4096 * (PagesFor(size) + 1)
    ensures BlockAllocated(old(k.View()), k.View(), k.Pml4(), block, PagesFor(size) + 1, PAGE_USER)
    ensures EntriesMade(old(k.View()), k.View(), 7)
    ensures forall i {:trigger PageAt(block, i)} :: 0 <= i < PagesFor(size) + 1 ==>
              UserBit(LeafEntry(k.mem, k.Pml4(), PageAt(block, i)))
  {
    hide Inv, MapRun, RunFrames, MapNext, EntriesMade, LeafEntry;
    var noOfPages := PagesFor(size);
    noOfPages := noOfPages + 1;
    BlockEntries(k.View(), k.Pml4(), k.topVirtualAddress, noOfPages, PAGE_USER);
    BlockOutcome(k.View(), k.Pml4(), k.topVirtualAddress, noOfPages, PAGE_USER);
    block := AllocatePages(k, k.topVirtualAddress, noOfPages, PAGE_USER, true);
  }

  /** kmalloc_top_virtual_address_user: whole pages from an address of the caller's choice. */
  method KmallocTopVirtualAddressUser(k: Kernel, size: Word, top: Word) returns (result: Word)
    requires k.Valid() && CanAllocate(k.View(), k.Pml4(), top, PagesFor(size), PAGE_USER)
    modifies k`mem, k`tables, k`freeListHeadKmalloc, k`pos, k`topVirtualAddress
    ensures k.Valid() && k.topVirtualAddress == old(k.topVirtualAddress)
    ensures k.View() == Allocated(old(k.View()), k.Pml4(), top, PagesFor(size), PAGE_USER)
    ensures result == if FreePrefix(old(k.mem), k.Pml4(), top, PagesFor(size)) == PagesFor(size) then top else 0
  {
    hide Inv, MapRun, RunFrames, MapNext;
    var noOfPages := PagesFor(size);
    result := AllocatePages(k, top, noOfPages, PAGE_USER, false);
  }

  // ---- New address spaces ----

  /** Whether frame p may be made a PML4 and mapped at top. */
  ghost predicate CanCreate(s: Space, r: nat, top: Word, p: nat, flags: Word) {
    && Inv(s) && p < FRAME_LIMIT && Flags(flags) && CanMap(s, r, top, p, flags)
    && DataFrame(s, p) && ZeroFrame(s.mem, p)
    && top % 4096 == 0 && top >= KERNBASE && top + 4096 < WORD_LIMIT
  }

  /** The steps of the creation: the frame is mapped, and its last two words are written through
      that mapping. */
  lemma CreationSteps(s: Space, r: nat, top: Word, p: nat, flags: Word, v511: Word, v510: Word)
    requires CanCreate(s, r, top, p, flags) && Follow(s.mem, r, Page(top)) == None
    requires v511 == top + 8 * 511 && v510 == top + 8 * 510
    ensures var s1 := MapDirect(s, r, top, p, flags);
            && Inv(s1) && IsRoot(s1.tables, r) && DataFrame(s1, p) && ZeroFrame(s1.mem, p)
            && Inv(AddSpace(s1, p, flags))
    ensures v511 % 8 == 0 && v510 % 8 == 0
    ensures Translate(MapDirect(s, r, top, p, flags).mem, r, v511) == Some(4096 * p + 8 * KERNEL_HALF)
    ensures var s1 := MapDirect(s, r, top, p, flags);
            var m2 := Write(s1.mem, p, KERNEL_HALF, Read(s1.mem, s1.kroot, KERNEL_HALF));
            Translate(m2, r, v510) == Some(4096 * p + 8 * SELF)
  {
    hide MapDirect, Inv, Translate, CanMap, Page;
    var s1 := MapDirect(s, r, top, p, flags);
    CreationMaps(s, r, top, p, flags);
    var w := Read(s1.mem, s1.kroot, KERNEL_HALF);
    var m2 := Write(s1.mem, p, KERNEL_HALF, w);
    DataWrite(s1, p, KERNEL_HALF, w);
    InvTree(s1);
    SameFollow(s1.mem, m2, s1.tables, s1.kroot, r, Page(top));
    InPage(s1.mem, r, top, p, v511, 8 * KERNEL_HALF);
    InPage(m2, r, top, p, v510, 8 * SELF);
    TopAligned(top, v511, v510);
    AddSpaceOutcome(s1, p, flags);
  }

  lemma CreationMaps(s: Space, r: nat, top: Word, p: nat, flags: Word)
    requires CanCreate(s, r, top, p, flags) && Follow(s.mem, r, Page(top)) == None
    ensures var s1 := MapDirect(s, r, top, p, flags);
            && Inv(s1) && IsRoot(s1.tables, r) && DataFrame(s1, p) && ZeroFrame(s1.mem, p)
            && Follow(s1.mem, r, Page(top)) == Some(p)
  {
    hide MapDirect, Inv, CanMap;
    var s1 := MapDirect(s, r, top, p, flags);
    MapDirectOutcome(s, r, top, p, flags);
    DataFrameKept(s, s1, p);
    RootIsMapped(s, r, top, p, flags);
    assert PathChange(s.mem, s1.mem, r, Page(top), p, r, Page(top));
    KernelAddress(top);
  }

  lemma RootIsMapped(s: Space, r: nat, top: Word, p: nat, flags: Word)
    requires CanMap(s, r, top, p, flags)
    ensures IsRoot(s.tables, r)
  {
  }

  lemma InvTree(s: Space)
    requires Inv(s)
    ensures TreeOk(s.mem, s.tables, s.kroot)
  {
  }

  lemma InPage(m: Memory, r: nat, v: Word, f: nat, w: Word, d: nat)
    requires v % 4096 == 0 && v >= KERNBASE && d < 4096 && w == v + d
    requires Follow(m, r, Page(v)) == Some(f)
    ensures Translate(m, r, w) == Some(4096 * f + d)
  {
    hide Page;
    DivModUnique(w, 4096, v / 4096, d);
    SamePage(v, w);
  }

  /** Once the frame is mapped at its top the heap goes on above it. */
  lemma HeapAfterCreation(s: Space, r: nat, top: Word, p: nat, flags: Word)
    requires CanCreate(s, r, top, p, flags) && HeapOk(s, top)
    ensures HeapOk(AddSpace(MapDirect(s, r, top, p, flags), p, flags), top + 4096)
  {
    hide MapDirect, AddSpace, Translate;
    var s1 := MapDirect(s, r, top, p, flags);
    KernelAddress(top);
    assert Unmapped(s, top);
    SharedHalf(s.mem, s.tables, s.kroot, r, Page(top));
    MapDirectOutcome(s, r, top, p, flags);
    DataFrameKept(s, s1, p);
    AddSpaceOutcome(s1, p, flags);
    var s2 := AddSpace(s1, p, flags);
    forall w: Word | w >= top + 4096
      ensures Unmapped(s2, w)
    {
      KernelAddress(w);
      assert Unmapped(s, w);
      PageIdentifies(top, w);
      assert w / 4096 >= top / 4096 + 1;
      assert PathChange(s.mem, s1.mem, r, Page(top), p, s.kroot, Page(w));
      assert Follow(s2.mem, s.kroot, Page(w)) == Follow(s1.mem, s.kroot, Page(w));
    }
  }

  /** The two assignments to slots 511 and 510 of the new PML4. */
  method FillRoot(k: Kernel, vAddr: Word, pAddr: Word, ghost p: nat, flags: Word)
    requires k.Valid() && p < FRAME_LIMIT && Flags(flags) && pAddr == 4096 * p && vAddr + 4096 < WORD_LIMIT
    requires (vAddr + 8 * 511) % 8 == 0
    requires Translate(k.mem, k.Pml4(), vAddr + 8 * 511) == Some(4096 * p + 8 * KERNEL_HALF)
    requires (vAddr + 8 * 510) % 8 == 0
    requires var m2 := Write(k.mem, p, KERNEL_HALF, Read(k.mem, k.kroot, KERNEL_HALF));
             Translate(m2, k.Pml4(), vAddr + 8 * 510) == Some(4096 * p + 8 * SELF)
    modifies k`mem, k`tables
    ensures k.View() == AddSpace(old(k.View()), p, flags)
  {
    hide Or, Inv, Translate;
    HalfEntryAddress(k.View(), k.Pml4(), k.kernelPml4 + 8 * 511);
    var half := k.Load(k.kernelPml4 + 8 * 511);
    k.StoreSlot(vAddr + 8 * 511, half, p, KERNEL_HALF);
    FlagsJoined(p, flags);
    k.StoreSlot(vAddr + 8 * 510, Or(pAddr, flags), p, SELF);
    k.tables := k.tables[p := RootNode(p, flags == PAGE_USER)];
  }

  /** create_new_kernel_pml4 and create_new_user_pml4: map the frame at the top of the heap, then
      fill slots 511 and 510 through that mapping. */
  method CreateNewPml4(k: Kernel, pAddr: Word, ghost p: nat, flags: Word) returns (vAddr: Word)
    requires k.Valid() && CanCreate(k.View(), k.Pml4(), k.topVirtualAddress, p, flags) && pAddr == 4096 * p
    modifies k`mem, k`tables, k`freeListHeadKmalloc, k`pos, k`topVirtualAddress
    ensures k.Valid()
    ensures Follow(old(k.mem), k.Pml4(), Page(old(k.topVirtualAddress))).Some? ==>
              vAddr == 0 && k.View() == old(k.View()) && k.topVirtualAddress == old(k.topVirtualAddress)
    ensures Follow(old(k.mem), k.Pml4(), Page(old(k.topVirtualAddress))) == None ==>
              && vAddr == old(k.topVirtualAddress) && k.topVirtualAddress == vAddr + 4096
              && k.View() == AddSpace(MapDirect(old(k.View()), k.Pml4(), vAddr, p, flags), p, flags)
  {
    hide Inv, MapDirect, CanMap, Translate, Outcome, Page, AddSpace;
    ghost var s, r := k.View(), k.Pml4();
    vAddr := k.topVirtualAddress;
    FrameOfAddress(p);
    if Follow(s.mem, r, Page(vAddr)) == None {
      CreationSteps(s, r, vAddr, p, flags, vAddr + 8 * 511, vAddr + 8 * 510);
    }
    var result := k.WalkAndMap(pAddr, vAddr, flags);
    if result == 0 {
      return 0;
    }
    k.topVirtualAddress := k.topVirtualAddress + PAGESIZE;
    AddSpaceFields(k.View(), p, flags);
    FillRoot(k, vAddr, pAddr, p, flags);
  }

  lemma AddSpaceFields(s: Space, p: nat, flags: Word)
    requires p < FRAME_LIMIT && Flags(flags)
    ensures var s' := AddSpace(s, p, flags);
            && s'.kroot == s.kroot && s'.pos == s.pos && s'.frames == s.frames && s'.base == s.base
            && forall r :: IsRoot(s.tables, r) ==> IsRoot(s'.tables, r)
  {
  }

  lemma TopAligned(v: Word, v511: Word, v510: Word)
    requires v % 4096 == 0 && v511 == v + 8 * 511 && v510 == v + 8 * 510
    ensures v511 % 8 == 0 && v510 % 8 == 0
  {
    assert v == 8 * (512 * (v / 4096));
  }

  /** The kernel reads its own entry 511 through the window. */
  lemma HalfEntryAddress(s: Space, r: nat, v: nat)
    requires Inv(s) && IsRoot(s.tables, r) && v == KERNBASE + 4096 * s.kroot + 8 * 511
    ensures v < WORD_LIMIT && v % 8 == 0 && Translate(s.mem, r, v).Some?
    ensures ReadPhys(s.mem, Translate(s.mem, r, v).value) == Read(s.mem, s.kroot, KERNEL_HALF)
  {
    var a := 4096 * s.kroot + 8 * KERNEL_HALF;
    SlotAddress(s.kroot, KERNEL_HALF);
    KernAligned(v, a);
    WindowTranslates(s, r, a, v);
  }
}
