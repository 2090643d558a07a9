/** When create_process can run: a condition on the list of areas and the number of frames left, and the
    systems that an executable's image makes of one with room for it. */
module Creation {
  import opened Words
  import opened Mmu
  import opened PageTree
  import opened AddressSpace
  import opened Mapping
  import opened Ranges
  import opened Spaces
  import opened Paging
  import opened Heap
  import opened FreeList
  import opened Runs
  import opened Bytes
  import opened CString
  import opened Process
  import Elf

  // ---- Frames ----

  /** A page takes at most four frames: its own and those of the tables on its path. */
  lemma {:induction false} FourEach(s: Space, r: nat, v: Word, n: nat, flags: Word)
    requires Inv(s) && IsRoot(s.tables, r) && Flags(flags) && GoodRun(v, n) && s.pos + 4 * n <= |s.frames|
    requires forall i :: 0 <= i < n ==> Follow(s.mem, r, Page(PageAt(v, i))) == None
    ensures CanMapRun(s, r, v, n, flags)
    ensures var s' := MapRun(s, r, v, n, flags); s'.frames == s.frames && s.pos <= s'.pos <= s.pos + 4 * n
    decreases n
  {
    hide *;
    if n == 0 {
      NothingToMap(s, r, v, flags);
    } else {
      var k: nat := n - 1;
      ShorterGood(v, n, k);
      FourEach(s, r, v, k, flags);
      OneMore(s, r, v, k, flags);
    }
  }

  lemma NothingToMap(s: Space, r: nat, v: Word, flags: Word)
    requires Inv(s) && IsRoot(s.tables, r) && Flags(flags) && GoodRun(v, 0)
    ensures CanMapRun(s, r, v, 0, flags) && MapRun(s, r, v, 0, flags) == s
  {
  }

  lemma ShorterGood(v: Word, n: nat, k: nat)
    requires GoodRun(v, n) && k <= n
    ensures GoodRun(v, k)
  {
  }

  /** A run with one page more, while four frames are left. */
  lemma OneMore(s: Space, r: nat, v: Word, k: nat, flags: Word)
    requires CanMapRun(s, r, v, k, flags) && GoodRun(v, k + 1) && Follow(s.mem, r, Page(PageAt(v, k))) == None
    requires MapRun(s, r, v, k, flags).frames == s.frames && MapRun(s, r, v, k, flags).pos + 4 <= |s.frames|
    ensures CanMapRun(s, r, v, k + 1, flags)
    ensures var s1, s2 := MapRun(s, r, v, k, flags), MapRun(s, r, v, k + 1, flags);
            s2.frames == s1.frames && s1.pos <= s2.pos <= s1.pos + 4
  {
    hide MapNext, Inv, Follow, Page, Canonical, RunFits, RunFrames, RunChange;
    var s1 := MapRun(s, r, v, k, flags);
    RunOutcome(s, r, v, k, flags);
    RoundFitsToo(s, r, v, k, flags);
    RunStep(s, r, v, k, flags);
    HalfPresent(s1);
    RoundOutcome(s1, r, PageAt(v, k), flags);
  }

  lemma RoundFitsToo(s: Space, r: nat, v: Word, k: nat, flags: Word)
    requires Flags(flags) && RunFits(s, r, v, k, flags)
    requires MapRun(s, r, v, k, flags).pos + 4 <= |MapRun(s, r, v, k, flags).frames|
    ensures RoundFits(MapRun(s, r, v, k, flags), r, PageAt(v, k)) && RunFits(s, r, v, k + 1, flags)
  {
    hide MapRun, Follow;
    forall i | 0 <= i < k + 1
      ensures RoundOk(s, r, v, flags, i)
    {
      if i < k { assert RoundOk(s, r, v, flags, i); }
    }
  }

  // ---- The heap block and the address space ----

  /** Frames for the control block and the new PML4, with all tables that may be missing. */
  const SPACE_FRAMES: nat := 16

  /** An allocation at the heap top needs four frames a page. */
  lemma CanAllocateHeap(y: System, n: nat, flags: Word)
    requires Good(y) && Flags(flags) && y.top + 4096 * n < WORD_LIMIT && y.space.pos + 4 * n <= |y.space.frames|
    ensures Enabled(y, Allocate(n, flags)) && Good(Do(y, Allocate(n, flags)))
    ensures var y' := Do(y, Allocate(n, flags));
            && y'.space.frames == y.space.frames && y.space.pos <= y'.space.pos <= y.space.pos + 4 * n
            && y'.root == y.root && y'.top == y.top + 4096 * n
  {
    hide MapRun, Inv, Follow, Page;
    HeapPagesFree(y.space, y.root, y.top, n);
    FourEach(y.space, y.root, y.top, n, flags);
    StepOutcome(y, Allocate(n, flags));
  }

  lemma CanCreateSpace(y: System)
    requires Good(y) && y.top + 4096 < WORD_LIMIT && y.space.pos + 4 <= |y.space.frames|
    ensures Enabled(y, CreateSpace(PAGE_USER)) && Good(Do(y, CreateSpace(PAGE_USER)))
    ensures var y' := Do(y, CreateSpace(PAGE_USER));
            && y'.space.frames == y.space.frames && y.space.pos <= y'.space.pos <= y.space.pos + 4
  {
    hide MapNext, Inv, Follow, Page;
    RootInUse(y);
    InvOfGood(y);
    HalfPresent(y.space);
    TopIsShared(y);
    RoundOutcome(y.space, y.root, y.top, PAGE_USER);
    StepOutcome(y, CreateSpace(PAGE_USER));
  }

  /** The new PML4 maps nothing outside the shared half. */
  lemma NewSpaceIsBare(y: System, u: Trail)
    requires Good(y) && Enabled(y, CreateSpace(PAGE_USER)) && u.Legal() && u.Depth() == 4 && u.Head() < SELF
    ensures Follow(Do(y, CreateSpace(PAGE_USER)).space.mem, HeadFrame(y.space), u) == None
  {
    hide MapNext, AddSpace, Inv, Follow, Page;
    CreateMaps(y, PAGE_USER);
    AddSpaceOutcome(MapNext(y.space, y.root, y.top, PAGE_USER), HeadFrame(y.space), PAGE_USER);
  }

  /** create_process gets its control block and its address space. */
  lemma SpaceIsMade(y: System)
    requires Good(y) && y.top + 0x4000 < WORD_LIMIT && y.space.pos + SPACE_FRAMES <= |y.space.frames|
    ensures CanMakeSpace(y)
    ensures var (s, s') := (y.space, AfterSpace(y).space);
            && Good(AfterSpace(y)) && Carries(y, AfterSpace(y)) && IsRoot(s'.tables, NewRoot(y))
            && s'.frames == s.frames && s'.pos <= s.pos + SPACE_FRAMES
            && forall u: Trail {:trigger Follow(s'.mem, NewRoot(y), u)} ::
                 u.Legal() && u.Depth() == 4 && u.Head() < SELF ==> Follow(s'.mem, NewRoot(y), u) == None
  {
    hide Good, Enabled, Do, Carries, Follow, Inv;
    assert PagesFor(PCB_SIZE) + 1 == 3;
    CanAllocateHeap(y, 3, PAGE_USER);
    var y1 := Do(y, Allocate(3, PAGE_USER));
    CanCreateSpace(y1);
    SpaceCarries(y);
    forall u: Trail | u.Legal() && u.Depth() == 4 && u.Head() < SELF
      ensures Follow(AfterSpace(y).space.mem, NewRoot(y), u) == None
    {
      NewSpaceIsBare(y1, u);
    }
  }

  // ---- The areas ----

  /** Where the pages of an area start, and how many there are. */
  function Low(a: Elf.Area): Word {
    match a.kind
    case TYPE_FILE => AreaStart(a)
    case TYPE_STACK => USER_STACK
    case TYPE_HEAP => 0
  }

  function Count(a: Elf.Area): nat {
    match a.kind
    case TYPE_FILE => AreaPages(a)
    case TYPE_STACK => 1
    case TYPE_HEAP => 0
  }

  /** No page of a is one of b. */
  predicate NoPageShared(a: Elf.Area, b: Elf.Area) {
    Count(a) == 0 || Count(b) == 0 || Low(a) + 4096 * Count(a) <= Low(b) || Low(b) + 4096 * Count(b) <= Low(a)
  }

  function TotalPages(areas: seq<Elf.Area>, n: nat): nat
    requires n <= |areas|
  {
    if n == 0 then 0 else TotalPages(areas, n - 1) + Count(areas[n - 1])
  }

  /** The pages of every area lie in canonical addresses below slot 510, and no two areas share one. */
  ghost predicate AreasApart(areas: seq<Elf.Area>) {
    && (forall i :: 0 <= i < |areas| ==>
          GoodRun(Low(areas[i]), Count(areas[i])) && UserRun(Low(areas[i]), Count(areas[i])))
    && (forall i, j :: 0 <= i < j < |areas| ==> NoPageShared(areas[i], areas[j]))
  }

  /** What the file areas are filled from is mapped, in frames that are in use for data. */
  ghost predicate SourcesOk(y: System, areas: seq<Elf.Area>, elfHead: Word) {
    forall i :: 0 <= i < |areas| && areas[i].kind.TYPE_FILE? ==>
      SourceOk(y, SourceAddress(elfHead, areas[i].offset), 4096 * AreaPages(areas[i]))
  }

  /** Pages of runs that do not overlap have different paths. */
  lemma PagesApart(v: Word, n: nat, w: Word, m: nat, i: nat, j: nat)
    requires GoodRun(v, n) && GoodRun(w, m) && i < n && j < m
    requires v % 4096 == 0 && w % 4096 == 0 && (v + 4096 * n <= w || w + 4096 * m <= v)
    ensures Page(PageAt(v, i)) != Page(PageAt(w, j))
  {
    PageIdentifies(PageAt(v, i), PageAt(w, j));
    assert PageAt(v, i) / 4096 == v / 4096 + i;
    assert PageAt(w, j) / 4096 == w / 4096 + j;
  }

  lemma LowAligned(a: Elf.Area)
    ensures Low(a) % 4096 == 0
  {
  }

  /** Whether the pages of areas[n..] are still free for root p. */
  ghost predicate FreeFrom(y: System, p: nat, areas: seq<Elf.Area>, n: nat) {
    forall j, i :: n <= j < |areas| && 0 <= i < Count(areas[j]) ==> PageFree(y, p, areas[j], i)
  }

  predicate PageFree(y: System, p: nat, a: Elf.Area, i: nat) {
    Follow(y.space.mem, p, Page(PageAt(Low(a), i))) == None
  }

  /** An area whose pages are free can be loaded. */
  lemma CanLoadArea(y: System, p: nat, a: Elf.Area, elfHead: Word)
    requires Good(y) && IsRoot(y.space.tables, p) && GoodRun(Low(a), Count(a)) && UserRun(Low(a), Count(a))
    requires y.space.pos + 4 * Count(a) <= |y.space.frames|
    requires forall i :: 0 <= i < Count(a) ==> PageFree(y, p, a, i)
    requires a.kind.TYPE_FILE? ==> SourceOk(y, SourceAddress(elfHead, a.offset), 4096 * AreaPages(a))
    ensures CanArea(y, p, a, elfHead)
    ensures var y' := AfterArea(y, p, a, elfHead);
            y'.space.frames == y.space.frames && y'.space.pos <= y.space.pos + 4 * Count(a)
    ensures CanMapRun(y.space, p, Low(a), Count(a), PAGE_USER)
  {
    hide Good, Inv, Follow, Page, MapRun, SourceOk, SourceBytes, Filled, RunFits, UserRun, AreaPages, AreaStart;
    InvOfGood(y);
    forall i | 0 <= i < Count(a)
      ensures Follow(y.space.mem, p, Page(PageAt(Low(a), i))) == None
    {
      assert PageFree(y, p, a, i);
    }
    FourEach(y.space, p, Low(a), Count(a), PAGE_USER);
    LowAligned(a);
    if a.kind.TYPE_FILE? { DoesMap(y, p, Low(a), Count(a)); }
  }

  /** Loading an area moves no page of p but those of the area. */
  lemma AreaMovesOnly(y: System, p: nat, a: Elf.Area, elfHead: Word, u: Trail)
    requires Good(y) && CanArea(y, p, a, elfHead) && CanMapRun(y.space, p, Low(a), Count(a), PAGE_USER)
    requires UserRun(Low(a), Count(a)) && u.Legal() && u.Depth() == 4 && u.Direct()
    requires IsRoot(y.space.tables, p) && forall i :: 0 <= i < Count(a) ==> u != Page(PageAt(Low(a), i))
    ensures Follow(AfterArea(y, p, a, elfHead).space.mem, p, u) == Follow(y.space.mem, p, u)
  {
    hide Good, Inv, Follow, Page, MapRun, SourceOk, SourceBytes, Filled, CanMapRun, UserRun, Carries, DataFrame;
    hide FreePages, AreaPages, AreaStart, Do, Allocated;
    var y0, op := y.(root := p), MapUser(Low(a), Count(a));
    AreaMapped(y, p, Low(a), Count(a));
    DoesMap(y, p, Low(a), Count(a));
    StepOutcome(y0, op);
    var y1 := Do(y0, op);
    assert Kept(y0, y1, op, p, u);
    if a.kind.TYPE_FILE? {
      var fs := AreaFrames(y, p, Low(a), Count(a));
      var bs := SourceBytes(y, SourceAddress(elfHead, a.offset), 4096 * Count(a));
      RootStays(y, y1, p);
      CarriedIsGood(y, y1);
      FillKeeps(y1, fs, bs);
      assert Follow(Filled(y1.space.mem, fs, bs), p, u) == Follow(y1.space.mem, p, u);
    }
  }

  /** The pages of areas that share none with a stay free while a is loaded. */
  lemma StaysFree(y: System, p: nat, a: Elf.Area, elfHead: Word, b: Elf.Area, i: nat)
    requires Good(y) && CanArea(y, p, a, elfHead) && CanMapRun(y.space, p, Low(a), Count(a), PAGE_USER)
    requires IsRoot(y.space.tables, p) && GoodRun(Low(a), Count(a)) && UserRun(Low(a), Count(a))
    requires GoodRun(Low(b), Count(b)) && UserRun(Low(b), Count(b)) && NoPageShared(a, b)
    requires i < Count(b) && PageFree(y, p, b, i)
    ensures PageFree(AfterArea(y, p, a, elfHead), p, b, i)
  {
    hide Good, CanArea, AfterArea, CanMapRun, Follow, Page, GoodRun, UserRun, Low, Count;
    LowAligned(a);
    LowAligned(b);
    var u := Page(PageAt(Low(b), i));
    UserPagePath(Low(b), Count(b), i);
    forall j | 0 <= j < Count(a)
      ensures u != Page(PageAt(Low(a), j))
    {
      PagesApart(Low(b), Count(b), Low(a), Count(a), i, j);
    }
    AreaMovesOnly(y, p, a, elfHead, u);
  }

  lemma UserPagePath(v: Word, n: nat, i: nat)
    requires UserRun(v, n) && i < n
    ensures var u := Page(PageAt(v, i)); u.Legal() && u.Depth() == 4 && u.Head() < SELF && u.Direct()
  {
  }

  /** All areas can be loaded one after the other: frames, free pages and sources last. */
  lemma {:induction false} CanLoadAreas(y: System, p: nat, areas: seq<Elf.Area>, n: nat, elfHead: Word)
    requires Good(y) && IsRoot(y.space.tables, p) && n <= |areas| && AreasApart(areas) && SourcesOk(y, areas, elfHead)
    requires y.space.pos + 4 * TotalPages(areas, n) <= |y.space.frames| && FreeFrom(y, p, areas, 0)
    ensures CanAreas(y, p, areas, n, elfHead)
    ensures var y' := AfterAreas(y, p, areas, n, elfHead);
            && y'.space.frames == y.space.frames && y'.space.pos <= y.space.pos + 4 * TotalPages(areas, n)
            && FreeFrom(y', p, areas, n)
    decreases n
  {
    hide *;
    if n == 0 {
      NoAreas(y, p, areas, elfHead);
      NoPages(areas);
    } else {
      var k: nat := n - 1;
      MorePages(areas, k);
      CanLoadAreas(y, p, areas, k, elfHead);
      AreasCarry(y, p, areas, k, elfHead);
      var y1 := AfterAreas(y, p, areas, k, elfHead);
      SourcesCarry(y, y1, areas, elfHead);
      RootStays(y, y1, p);
      CarriedIsGood(y, y1);
      CanLoadNext(y1, p, areas, k, elfHead);
      OneAreaMore(y, p, areas, k, elfHead);
    }
  }

  lemma NoPages(areas: seq<Elf.Area>)
    ensures TotalPages(areas, 0) == 0
  {
  }

  lemma MorePages(areas: seq<Elf.Area>, k: nat)
    requires k < |areas|
    ensures TotalPages(areas, k + 1) == TotalPages(areas, k) + Count(areas[k])
  {
  }

  lemma OneAreaMore(y: System, p: nat, areas: seq<Elf.Area>, k: nat, elfHead: Word)
    requires k < |areas| && CanAreas(y, p, areas, k, elfHead)
    requires CanArea(AfterAreas(y, p, areas, k, elfHead), p, areas[k], elfHead)
    ensures CanAreas(y, p, areas, k + 1, elfHead)
    ensures AfterAreas(y, p, areas, k + 1, elfHead)
            == AfterArea(AfterAreas(y, p, areas, k, elfHead), p, areas[k], elfHead)
  {
    hide CanArea, AfterArea;
  }

  lemma SourcesCarry(y: System, y1: System, areas: seq<Elf.Area>, elfHead: Word)
    requires Good(y) && Carries(y, y1) && SourcesOk(y, areas, elfHead)
    ensures SourcesOk(y1, areas, elfHead)
  {
    hide Good, Carries, SourceOk, AreaPages, SourceAddress;
    forall i | 0 <= i < |areas| && areas[i].kind.TYPE_FILE?
      ensures SourceOk(y1, SourceAddress(elfHead, areas[i].offset), 4096 * AreaPages(areas[i]))
    {
      SourceCarries(y, y1, SourceAddress(elfHead, areas[i].offset), 4096 * AreaPages(areas[i]));
    }
  }

  /** The next area can be loaded, and leaves the pages of those behind it free. */
  lemma CanLoadNext(y: System, p: nat, areas: seq<Elf.Area>, k: nat, elfHead: Word)
    requires Good(y) && IsRoot(y.space.tables, p) && k < |areas| && AreasApart(areas) && SourcesOk(y, areas, elfHead)
    requires y.space.pos + 4 * Count(areas[k]) <= |y.space.frames| && FreeFrom(y, p, areas, k)
    ensures CanArea(y, p, areas[k], elfHead)
    ensures var y' := AfterArea(y, p, areas[k], elfHead);
            && y'.space.frames == y.space.frames && y'.space.pos <= y.space.pos + 4 * Count(areas[k])
            && FreeFrom(y', p, areas, k + 1)
  {
    hide Good, CanArea, AfterArea, CanMapRun, PageFree, GoodRun, UserRun, Low, Count, SourceOk, AreaPages;
    hide SourceAddress, NoPageShared;
    CanLoadArea(y, p, areas[k], elfHead);
    forall j, i | k + 1 <= j < |areas| && 0 <= i < Count(areas[j])
      ensures PageFree(AfterArea(y, p, areas[k], elfHead), p, areas[j], i)
    {
      StaysFree(y, p, areas[k], elfHead, areas[j], i);
    }
  }

  // ---- The whole of create_process ----

  /** A condition that can be checked before the call: areas apart and filled from mapped data, room for
      the control block and the PML4 on the heap, and four frames for each page. */
  ghost predicate Prepared(y: System, areas: seq<Elf.Area>, elfHead: Word) {
    && AreasApart(areas) && SourcesOk(y, areas, elfHead) && y.top + 0x4000 < WORD_LIMIT
    && y.space.pos + SPACE_FRAMES + 4 * TotalPages(areas, |areas|) <= |y.space.frames|
  }

  /** It is enough. */
  lemma CanCreate(y: System, areas: seq<Elf.Area>, elfHead: Word)
    requires Good(y) && Prepared(y, areas, elfHead)
    ensures CanCreateProcess(y, areas, elfHead)
  {
    hide Good, Enabled, Do, AfterSpace, NewRoot, CanAreas, Carries, AreasApart, SourcesOk, Follow, TotalPages;
    SpaceIsMade(y);
    var y2, p := AfterSpace(y), NewRoot(y);
    SourcesCarry(y, y2, areas, elfHead);
    BareIsFree(y2, p, areas);
    CanLoadAreas(y2, p, areas, |areas|, elfHead);
  }

  lemma BareIsFree(y: System, p: nat, areas: seq<Elf.Area>)
    requires AreasApart(areas)
    requires forall u: Trail {:trigger Follow(y.space.mem, p, u)} ::
               u.Legal() && u.Depth() == 4 && u.Head() < SELF ==> Follow(y.space.mem, p, u) == None
    ensures FreeFrom(y, p, areas, 0)
  {
    hide Follow, GoodRun, UserRun, Low, Count, NoPageShared, Page;
    forall j, i | 0 <= j < |areas| && 0 <= i < Count(areas[j])
      ensures PageFree(y, p, areas[j], i)
    {
      UserPagePath(Low(areas[j]), Count(areas[j]), i);
    }
  }

  // ---- An image to create a process from ----

  /** The system after kmalloc has given the kernel n pages and the kernel has written a file there. */
  function WithImage(y: System, n: nat, file: seq<Byte>): System
    requires Enabled(y, Allocate(n, PAGE_KERNEL)) && |file| <= 4096 * n
  {
    FillSystem(Do(y, Allocate(n, PAGE_KERNEL)), RunFrames(y.space, y.root, y.top, n, PAGE_KERNEL), file)
  }

  /** The pages of the block are different data frames, seen at the heap top by the kernel's PML4. */
  lemma BlockForImage(y: System, n: nat)
    requires Good(y) && y.top + 4096 * n < WORD_LIMIT && y.space.pos + 4 * n <= |y.space.frames|
    ensures Enabled(y, Allocate(n, PAGE_KERNEL)) && GoodRun(y.top, n)
    ensures var y1, fs := Do(y, Allocate(n, PAGE_KERNEL)), RunFrames(y.space, y.root, y.top, n, PAGE_KERNEL);
            && Good(y1) && Different(fs) && y1.space.kroot == y.space.kroot && y1.top == y.top + 4096 * n
            && y1.space.frames == y.space.frames && y1.space.pos <= y.space.pos + 4 * n
            && (forall j :: 0 <= j < n ==> DataFrame(y1.space, fs[j]))
            && forall j :: 0 <= j < n ==> Follow(y1.space.mem, y.space.kroot, Page(PageAt(y.top, j))) == Some(fs[j])
  {
    hide MapRun, RunFrames, Inv, Follow, Page, DataFrame, Good;
    var op, fs := Allocate(n, PAGE_KERNEL), RunFrames(y.space, y.root, y.top, n, PAGE_KERNEL);
    CanAllocateHeap(y, n, PAGE_KERNEL);
    TopRun(y, n);
    StepOutcome(y, op);
    forall i, j | 0 <= i < j < n
      ensures fs[i] != fs[j]
    {
      PagesOfStepDiffer(y, op, i, j);
    }
    forall j | 0 <= j < n
      ensures DataFrame(Do(y, op).space, fs[j])
      ensures Follow(Do(y, op).space.mem, y.space.kroot, Page(PageAt(y.top, j))) == Some(fs[j])
    {
      PageOfStep(y, op, j);
      HeapPage(y, n, PAGE_KERNEL, j);
    }
  }

  lemma TopRun(y: System, n: nat)
    requires Good(y) && y.top + 4096 * n < WORD_LIMIT
    ensures GoodRun(y.top, n)
  {
    hide Inv, Follow, Page;
    HeapPagesFree(y.space, y.root, y.top, n);
  }

  lemma HeapPage(y: System, n: nat, flags: Word, j: nat)
    requires Good(y) && Enabled(y, Allocate(n, flags)) && j < n
    ensures var fs := RunFrames(y.space, y.root, y.top, n, flags);
            Follow(Do(y, Allocate(n, flags)).space.mem, y.space.kroot, Page(PageAt(y.top, j))) == Some(fs[j])
  {
    hide MapRun, RunFrames, Inv, Follow, Page;
    var s, fs, u := y.space, RunFrames(y.space, y.root, y.top, n, flags), Page(PageAt(y.top, j));
    OpRun(y, Allocate(n, flags));
    RunOutcome(s, y.root, y.top, n, flags);
    PlacedAt(y.top, fs, n, u);
    KernelAddress(PageAt(y.top, j));
    RootOfGood(y);
    KernelPath(PageAt(y.top, j));
    assert RunChange(s.mem, MapRun(s, y.root, y.top, n, flags).mem, y.root, y.top, fs, s.kroot, u);
  }

  lemma KernelPath(w: Word)
    requires I4(w) == KERNEL_HALF
    ensures var u := Page(w); u.Legal() && u.Depth() == 4 && u.Head() == KERNEL_HALF && u.Direct()
  {
  }

  /** The kernel finds the file from the old heap top on, in frames that are in use for data. */
  lemma ImageBuilt(y: System, n: nat, file: seq<Byte>)
    requires Good(y) && y.top + 4096 * n < WORD_LIMIT && y.space.pos + 4 * n <= |y.space.frames| && |file| <= 4096 * n
    ensures Enabled(y, Allocate(n, PAGE_KERNEL))
    ensures var y' := WithImage(y, n, file);
            && Good(y') && ImageAt(y', y.top, file) && SourceOk(y', y.top, 4096 * n)
            && y'.top == y.top + 4096 * n
            && y'.space.frames == y.space.frames && y'.space.pos <= y.space.pos + 4 * n
  {
    hide Good, Do, DataFrame, Follow, Page, Filled, RunFrames, GoodRun, AddressAt, ReadByte;
    BlockForImage(y, n);
    var y1, fs := Do(y, Allocate(n, PAGE_KERNEL)), RunFrames(y.space, y.root, y.top, n, PAGE_KERNEL);
    FillKeeps(y1, fs, file);
    TopFacts(y);
    var y' := WithImage(y, n, file);
    forall i | 0 <= i < 4096 * n
      ensures SourceAt(y', y.top, i)
      ensures i < |file| ==> SourceByte(y', y.top, i) == file[i]
    {
      ImageByte(y, y1, n, fs, file, i);
    }
  }

  lemma ImageByte(y: System, y1: System, n: nat, fs: seq<nat>, file: seq<Byte>, i: nat)
    requires Good(y) && Good(y1) && GoodRun(y.top, n) && |fs| == n && Different(fs)
    requires |file| <= 4096 * n && i < 4096 * n
    requires y1.space.kroot == y.space.kroot && forall j :: 0 <= j < n ==> DataFrame(y1.space, fs[j])
    requires forall j :: 0 <= j < n ==> Follow(y1.space.mem, y.space.kroot, Page(PageAt(y.top, j))) == Some(fs[j])
    ensures var y' := FillSystem(y1, fs, file);
            SourceAt(y', y.top, i) && (i < |file| ==> SourceByte(y', y.top, i) == file[i])
  {
    hide Good, DataFrame, Follow, Page, Filled, GoodRun, AddressAt, ReadByte, Different;
    TopFacts(y);
    RootOfGood(y1);
    AddressInRun(y.top, n, i);
    ImageAddress(y.top, n, i);
    FillKeeps(y1, fs, file);
    SameDataFrames(y1.space, FillSystem(y1, fs, file).space);
    if i < |file| { FilledAt(y1.space.mem, fs, file, i); }
    var a := AddressAt(y.top, i);
    KernelAddress(a);
    KernelPath(a);
    assert Follow(Filled(y1.space.mem, fs, file), y.space.kroot, Page(a)) == Some(fs[i / 4096]);
  }

  lemma ImageAddress(top: Word, n: nat, i: nat)
    requires GoodRun(top, n) && i < 4096 * n && top >= KERNBASE
    ensures AddressAt(top, i) >= KERNBASE
  {
  }

  // ---- Executables for which the wrong bytes are loaded ----

  /** Room on the heap and on the list for an image of n pages and a process of these areas, which take
      their bytes from within the image. */
  ghost predicate Room(y: System, n: nat, areas: seq<Elf.Area>) {
    && AreasApart(areas) && y.top + 4096 * n + 0x4000 < WORD_LIMIT
    && y.space.pos + 4 * n + SPACE_FRAMES + 4 * TotalPages(areas, |areas|) <= |y.space.frames|
    && forall i :: 0 <= i < |areas| && areas[i].kind.TYPE_FILE? ==>
         8 * areas[i].offset + 4096 * AreaPages(areas[i]) <= 4096 * n
  }

  /** A loadable segment, as far as its own header goes. */
  predicate Loadable(areas: seq<Elf.Area>, i: nat, h: Elf.Phdr) {
    i < |areas| && areas[i] == Elf.FileArea(h) && h.filesz <= h.memsz && h.vaddr + h.memsz < WORD_LIMIT
  }

  lemma SourceWithin(y: System, head: Word, offset: Word, size: nat, n: nat)
    requires SourceOk(y, head, n) && 8 * offset + size <= n && head + n < WORD_LIMIT
    ensures SourceOk(y, SourceAddress(head, offset), size)
  {
    hide Follow, Page, DataFrame;
    var src := SourceAddress(head, offset);
    assert src == head + 8 * offset;
    forall i | 0 <= i < size
      ensures SourceAt(y, src, i)
    {
      assert SourceAt(y, head, 8 * offset + i);
      assert AddressAt(src, i) == AddressAt(head, 8 * offset + i);
    }
  }

  /** Such a process can be created, from any file of that size: the setting of SegmentHolds is met. */
  lemma SettingMet(y: System, n: nat, areas: seq<Elf.Area>, i: nat, h: Elf.Phdr, file: seq<Byte>)
    requires Good(y) && Room(y, n, areas) && Loadable(areas, i, h)
    requires 8 * h.offset + h.vaddr % 4096 + h.filesz <= |file| <= 4096 * n
    ensures Enabled(y, Allocate(n, PAGE_KERNEL)) && CreatedFrom(WithImage(y, n, file), areas, y.top, i, h, file)
  {
    hide Good, Enabled, WithImage, ImageAt, SourceOk, CanCreateProcess, AreasApart, AreaPages, SourceAddress;
    hide TotalPages;
    ImageBuilt(y, n, file);
    var y' := WithImage(y, n, file);
    forall j | 0 <= j < |areas| && areas[j].kind.TYPE_FILE?
      ensures SourceOk(y', SourceAddress(y.top, areas[j].offset), 4096 * AreaPages(areas[j]))
    {
      SourceWithin(y', y.top, areas[j].offset, 4096 * AreaPages(areas[j]), 4096 * n);
    }
    CanCreate(y', areas, y.top);
    assert areas[i].kind.TYPE_FILE? && areas[i].offset == h.offset;
  }

  /** Whether the process created from this file holds the bytes of the segment that the format names. */
  ghost predicate LoadsRight(y: System, n: nat, areas: seq<Elf.Area>, i: nat, h: Elf.Phdr, file: seq<Byte>)
    requires Enabled(y, Allocate(n, PAGE_KERNEL)) && |file| <= 4096 * n && h.offset + h.filesz <= |file|
    requires CanCreateProcess(WithImage(y, n, file), areas, y.top)
  {
    var y' := WithImage(y, n, file);
    RightSegment(Created(y', areas, y.top), NewRoot(y'), h, file)
  }

  /** The files of up to n pages from which the loader can read the segment. */
  predicate Readable(h: Elf.Phdr, n: nat, file: seq<Byte>) {
    8 * h.offset + h.vaddr % 4096 + h.filesz <= |file| <= 4096 * n
  }

  /** In every system with room, and for every segment: each file is loaded as the format says exactly if
      it repeats the segment's bytes where the loader looks, and all are exactly if the segment is
      empty, or starts the file and begins on a page boundary. */
  lemma RightForAllImages(y: System, n: nat, areas: seq<Elf.Area>, i: nat, h: Elf.Phdr)
    requires Good(y) && Room(y, n, areas) && Loadable(areas, i, h)
    ensures Enabled(y, Allocate(n, PAGE_KERNEL))
    ensures forall file {:trigger Readable(h, n, file)} :: Readable(h, n, file) ==>
              && CanCreateProcess(WithImage(y, n, file), areas, y.top)
              && (LoadsRight(y, n, areas, i, h, file) <==> ReadsRight(file, h))
    ensures (forall file {:trigger Readable(h, n, file)} ::
               Readable(h, n, file) ==> LoadsRight(y, n, areas, i, h, file))
        <==> h.filesz == 0 || (h.offset == 0 && h.vaddr % 4096 == 0)
  {
    hide *;
    RoomForImage(y, n, areas);
    forall file | Readable(h, n, file)
      ensures h.offset + h.filesz <= |file| <= 4096 * n && CanCreateProcess(WithImage(y, n, file), areas, y.top)
      ensures 8 * h.offset + h.vaddr % 4096 + h.filesz <= |file|
      ensures LoadsRight(y, n, areas, i, h, file) <==> ReadsRight(file, h)
    {
      Sizes(h, n, file);
      OneImage(y, n, areas, i, h, file);
    }
    SomeFileWrong(y, n, areas, i, h);
  }

  lemma Sizes(h: Elf.Phdr, n: nat, file: seq<Byte>)
    requires Readable(h, n, file)
    ensures 8 * h.offset + h.vaddr % 4096 + h.filesz <= |file| <= 4096 * n && h.offset + h.filesz <= |file|
  {
  }

  lemma RoomForImage(y: System, n: nat, areas: seq<Elf.Area>)
    requires Good(y) && Room(y, n, areas)
    ensures Enabled(y, Allocate(n, PAGE_KERNEL))
  {
    hide Good, AreasApart;
    ImageBuilt(y, n, []);
  }

  lemma OneImage(y: System, n: nat, areas: seq<Elf.Area>, i: nat, h: Elf.Phdr, file: seq<Byte>)
    requires Good(y) && Room(y, n, areas) && Loadable(areas, i, h) && Readable(h, n, file)
    ensures Enabled(y, Allocate(n, PAGE_KERNEL)) && CanCreateProcess(WithImage(y, n, file), areas, y.top)
    ensures LoadsRight(y, n, areas, i, h, file) <==> ReadsRight(file, h)
  {
    hide Good, Room, Enabled, CreatedFrom, CanCreateProcess, WithImage, RightSegment, ReadsRight, Created, NewRoot;
    SettingMet(y, n, areas, i, h, file);
    FileIsLong(WithImage(y, n, file), areas, y.top, i, h, file);
    SegmentIsRightFor(WithImage(y, n, file), areas, y.top, i, h, file);
  }

  /** All files read right exactly in the two cases; a file that does not is within n pages. */
  lemma SomeFileWrong(y: System, n: nat, areas: seq<Elf.Area>, i: nat, h: Elf.Phdr)
    requires Room(y, n, areas) && Loadable(areas, i, h)
    ensures (forall file {:trigger Readable(h, n, file)} :: Readable(h, n, file) ==> ReadsRight(file, h))
        <==> h.filesz == 0 || (h.offset == 0 && h.vaddr % 4096 == 0)
  {
    hide AreasApart, TotalPages;
    if h.filesz > 0 && !(h.offset == 0 && h.vaddr % 4096 == 0) {
      MarkedFits(y, n, areas, i, h);
      assert !SameByte(MarkedFile(h), h, 0);
      assert Readable(h, n, MarkedFile(h)) && !ReadsRight(MarkedFile(h), h);
    }
  }

  lemma MarkedFits(y: System, n: nat, areas: seq<Elf.Area>, i: nat, h: Elf.Phdr)
    requires Room(y, n, areas) && Loadable(areas, i, h) && h.filesz > 0
    ensures Readable(h, n, MarkedFile(h))
  {
    hide AreasApart, TotalPages;
    SegmentPages(h);
    assert areas[i].kind.TYPE_FILE? && areas[i].offset == h.offset;
  }

  /** The pages of an area hold the whole segment. */
  lemma SegmentPages(h: Elf.Phdr)
    requires h.filesz <= h.memsz && h.vaddr + h.memsz < WORD_LIMIT
    ensures h.vaddr % 4096 + h.filesz <= 4096 * AreaPages(Elf.FileArea(h))
  {
    var (a, d) := (Elf.FileArea(h), h.vaddr % 4096);
    assert h.vaddr == 4096 * (h.vaddr / 4096) + d;
    assert AreaStart(a) == h.vaddr - d;
    assert (a.end - AreaStart(a)) % 0x1_0000_0000_0000_0000 == d + h.memsz;
    SizeInPages(a);
  }

  /** The failing input: in every system with room, for every other segment, a process in which the first
      byte of the segment is one where the file has zero. */
  lemma ImageGoesWrong(y: System, n: nat, areas: seq<Elf.Area>, i: nat, h: Elf.Phdr)
    requires Good(y) && Room(y, n, areas) && Loadable(areas, i, h)
    requires h.filesz > 0 && !(h.offset == 0 && h.vaddr % 4096 == 0)
    ensures |MarkedFile(h)| <= 4096 * n && MarkedFile(h)[h.offset] == 0
    ensures Enabled(y, Allocate(n, PAGE_KERNEL))
    ensures var y' := WithImage(y, n, MarkedFile(h));
            && ImageAt(y', y.top, MarkedFile(h)) && CanCreateProcess(y', areas, y.top)
            && MappedByte(Created(y', areas, y.top), NewRoot(y'), h.vaddr) == 1
  {
    hide Good, Room, Enabled, CanCreateProcess, WithImage, Created, NewRoot, MappedByte, SourceOk, ImageAt;
    MarkedFits(y, n, areas, i, h);
    SettingMet(y, n, areas, i, h, MarkedFile(h));
    SegmentGoesWrong(WithImage(y, n, MarkedFile(h)), areas, y.top, i, h);
  }

  // ---- One segment ----

  /** What load_elf_vmas makes of an executable with one loadable segment. */
  function OneSegment(h: Elf.Phdr): seq<Elf.Area> {
    [Elf.FileArea(h), Elf.STACK, Elf.HEAP]
  }

  lemma OneSegmentIs(h: Elf.Phdr)
    requires h.kind == Elf.PT_LOAD
    ensures Elf.FileAreas([h]) + [Elf.STACK, Elf.HEAP] == OneSegment(h)
  {
    assert [h][..0] == [];
    assert Elf.FileAreas([h]) == Elf.FileAreas([]) + [Elf.FileArea(h)];
  }

  /** A segment in the lower half of the address space leaves room for the stack. */
  lemma OneSegmentApart(h: Elf.Phdr)
    requires h.vaddr + h.memsz <= 0x7fff_ffff_f000
    ensures AreasApart(OneSegment(h))
    ensures TotalPages(OneSegment(h), 3) == AreaPages(Elf.FileArea(h)) + 1
    ensures AreaStart(Elf.FileArea(h)) + 4096 * AreaPages(Elf.FileArea(h)) < 0x8000_0000_0000
  {
    hide I4;
    var (a, d) := (Elf.FileArea(h), h.vaddr % 4096);
    assert h.vaddr == 4096 * (h.vaddr / 4096) + d;
    assert AreaStart(a) == h.vaddr - d;
    assert (a.end - AreaStart(a)) % 0x1_0000_0000_0000_0000 == d + h.memsz;
    SizeInPages(a);
    LowRun(AreaStart(a), AreaPages(a));
    StackIsUser();
    StackRun();
    TotalOfThree(OneSegment(h));
  }

  lemma TotalOfThree(areas: seq<Elf.Area>)
    requires |areas| == 3
    ensures TotalPages(areas, 3) == Count(areas[0]) + Count(areas[1]) + Count(areas[2])
  {
    hide Count;
    assert TotalPages(areas, 1) == TotalPages(areas, 0) + Count(areas[0]);
    assert TotalPages(areas, 2) == TotalPages(areas, 1) + Count(areas[1]);
  }

  lemma LowRun(v: Word, n: nat)
    requires v + 4096 * n < 0x8000_0000_0000
    ensures GoodRun(v, n) && UserRun(v, n)
  {
    forall i | 0 <= i < n
      ensures Canonical(PageAt(v, i)) && I4(PageAt(v, i)) < SELF
    {
      LowAddress(PageAt(v, i));
    }
  }

  lemma LowAddress(w: Word)
    requires w < 0x8000_0000_0000
    ensures Canonical(w) && I4(w) < SELF
  {
  }

  lemma StackRun()
    ensures GoodRun(USER_STACK, 1) && USER_STACK >= 0x8000_0000_0000 && GoodRun(0, 0) && UserRun(0, 0)
  {
  }

  /** The smallest case in numbers: any system with a page of heap for each page of the image, and
      4 n + 4 pages + 20 frames left, makes a process of such an executable; if the segment does not
      start the file on a page boundary, with a wrong byte. */
  lemma OneSegmentGoesWrong(y: System, n: nat, h: Elf.Phdr)
    requires Good(y) && h.filesz <= h.memsz && h.vaddr + h.memsz <= 0x7fff_ffff_f000
    requires 8 * h.offset + 4096 * AreaPages(Elf.FileArea(h)) <= 4096 * n && y.top + 4096 * n + 0x4000 < WORD_LIMIT
    requires y.space.pos + 4 * n + 4 * AreaPages(Elf.FileArea(h)) + 20 <= |y.space.frames|
    requires h.filesz > 0 && !(h.offset == 0 && h.vaddr % 4096 == 0)
    ensures |MarkedFile(h)| <= 4096 * n && MarkedFile(h)[h.offset] == 0
    ensures Enabled(y, Allocate(n, PAGE_KERNEL))
    ensures var y' := WithImage(y, n, MarkedFile(h));
            && ImageAt(y', y.top, MarkedFile(h)) && CanCreateProcess(y', OneSegment(h), y.top)
            && MappedByte(Created(y', OneSegment(h), y.top), NewRoot(y'), h.vaddr) == 1
  {
    hide Good, Enabled, CanCreateProcess, WithImage, Created, NewRoot, MappedByte, SourceOk, ImageAt;
    hide AreasApart, TotalPages, AreaPages;
    OneSegmentApart(h);
    ImageGoesWrong(y, n, OneSegment(h), 0, h);
  }

  // ---- The image is made by operations of the kernel ----

  lemma {:induction false} RunThen(y: System, ops: seq<Op>, op: Op)
    requires AllEnabled(y, ops) && Enabled(Run(y, ops), op)
    ensures AllEnabled(y, ops + [op]) && Run(y, ops + [op]) == Do(Run(y, ops), op)
    decreases |ops|
  {
    hide Enabled, Do;
    if ops == [] {
      assert [op][1..] == [];
    } else {
      RunThen(Do(y, ops[0]), ops[1..], op);
      assert (ops + [op])[1..] == ops[1..] + [op];
    }
  }

  /** Filling data frames is a run of stores. */
  lemma {:induction false} FillIsRun(y: System, fs: seq<nat>, bs: seq<Byte>) returns (ops: seq<Op>)
    requires Good(y) && |bs| <= 4096 * |fs| && forall j :: 0 <= j < |fs| ==> DataFrame(y.space, fs[j])
    ensures AllEnabled(y, ops) && Run(y, ops) == FillSystem(y, fs, bs)
    decreases |bs|
  {
    hide Good, DataFrame, WithByte, AllEnabled, Run;
    if bs == [] {
      ops := [];
      NothingFilled(y, fs);
      EmptyRun(y);
    } else {
      var i: nat := |bs| - 1;
      var before := FillIsRun(y, fs, bs[..i]);
      var y1 := FillSystem(y, fs, bs[..i]);
      var f, j := fs[i / 4096], i % 4096 / 8;
      var op := WriteData(f, j, WithByte(Read(y1.space.mem, f, j), i % 4096 % 8, bs[i]));
      SameDataFrames(y.space, y1.space);
      assert FillSystem(y, fs, bs) == Do(y1, op);
      RunThen(y, before, op);
      ops := before + [op];
    }
  }

  lemma EmptyRun(y: System)
    ensures AllEnabled(y, []) && Run(y, []) == y
  {
  }

  /** A system with an image is reached by an allocation and stores. */
  lemma ImageIsRun(y: System, n: nat, file: seq<Byte>) returns (ops: seq<Op>)
    requires Good(y) && y.top + 4096 * n < WORD_LIMIT && y.space.pos + 4 * n <= |y.space.frames| && |file| <= 4096 * n
    ensures Enabled(y, Allocate(n, PAGE_KERNEL))
    ensures AllEnabled(y, ops) && Run(y, ops) == WithImage(y, n, file)
  {
    hide Good, Enabled, Do, Filled, RunFrames, DataFrame, Follow, Page;
    BlockForImage(y, n);
    var y1 := Do(y, Allocate(n, PAGE_KERNEL));
    var rest := FillIsRun(y1, RunFrames(y.space, y.root, y.top, n, PAGE_KERNEL), file);
    ops := [Allocate(n, PAGE_KERNEL)] + rest;
    assert ops[1..] == rest;
  }
}
