/** Booting: the kernel's own page tables are built by index, frame by frame, on the loader's
    mapping, and the kernel then moves onto them (sys/paging.c, sys/main.c). Physical and kernel
    addresses name the same memory here; accesses are modelled on frames and slots. */
module Boot {
  import opened Words
  import opened Mmu
  import opened PageTree
  import opened AddressSpace
  import opened Mapping
  import opened Ranges
  import opened Prefixes
  import opened Paging
  import opened Heap
  import opened FreeList
  import Window

  // ---- Frames while booting ----

  /** The head of the list points to the node of the next frame, or nowhere. */
  ghost predicate HeadOk(k: Kernel)
    reads k
  {
    k.freeListHead == if k.pos < |k.frames| then NodeAddress(k.View(), k.pos) else 0
  }

  /** get_next_free_page: takes the head of the list by physical address; all ones when empty. */
  method GetNextFreePage(k: Kernel) returns (p: Word)
    requires HeadOk(k) && k.base % 4096 == 0 && 0 < k.base
    requires k.pos < |k.frames| ==> NodeStored(k.View(), k.pos)
    modifies k`mem, k`freeListHead, k`pos
    ensures HeadOk(k)
    ensures old(k.pos) >= |k.frames| ==> p == WORD_LIMIT - 1 && k.View() == old(k.View())
    ensures old(k.pos) < |k.frames| ==> p == 4096 * k.frames[old(k.pos)] && k.View() == Popped(old(k.View()))
  {
    var temp := k.freeListHead;
    if k.freeListHead == 0 {
      return 0xffff_ffff_ffff_ffff;
    }
    ghost var s := k.View();
    HeadNode(s);
    k.mem := WritePhys(k.mem, temp + 8, ALLOCATED);
    k.freeListHead := ReadPhys(k.mem, temp);
    p := ReadPhys(k.mem, temp + 16);
    k.pos := k.pos + 1;
  }

  lemma HeadNode(s: Space)
    requires s.base % 4096 == 0 && s.pos < |s.frames| && NodeStored(s, s.pos)
    ensures ReadPhys(Popped(s).mem, NodeAddress(s, s.pos)) == NextField(s, s.pos)
    ensures ReadPhys(Popped(s).mem, NodeAddress(s, s.pos) + 16) == 4096 * s.frames[s.pos]
  {
    var a := NodeAddress(s, s.pos);
    NodeFields(s.base, s.pos, s.pos);
    PhysDistinct(s.mem, a + 8, 1, a);
    PhysDistinct(s.mem, a + 8, 1, a + 16);
  }

  // ---- map_all_kernel_pages ----

  /** What holds while the kernel's tables are being built. */
  ghost predicate Building(k: Kernel)
    reads k
  {
    && BootInv(k.View()) && HalfOk(k.View()) && HeadOk(k) && 0 < k.base
    && k.kernelPml4 == KERNBASE + 4096 * k.kroot
  }

  /** The offsets (v >> 39) & 0x1ff, ... are the four indices. */
  lemma Offsets(v: Word)
    ensures And(Shr(v, 39), 0x1ff) == I4(v) && And(Shr(v, 30), 0x1ff) == I3(v)
    ensures And(Shr(v, 21), 0x1ff) == I2(v) && And(Shr(v, 12), 0x1ff) == I1(v)
  {
    OffsetField(v, 39);
    OffsetField(v, 30);
    OffsetField(v, 21);
    OffsetField(v, 12);
    Window.Powers();
  }

  lemma OffsetField(v: Word, k: nat)
    ensures And(Shr(v, k), 0x1ff) == v / Pow2(k) % 512
  {
    ShrDivides(v, k);
    Window.Powers();
    AndLow(v / Pow2(k), 9);
  }

  /** Taking a frame and storing it with the kernel's flags in entry i of table f. */
  method LinkFresh(k: Kernel, f: nat, i: nat, ghost v: Word, ghost up: Trail) returns (frame: nat)
    requires Building(k) && k.pos < |k.frames| && Gap(k.View(), k.kroot, v, up, i)
             && Follow(k.mem, k.kroot, up) == Some(f)
    modifies k`mem, k`tables, k`freeListHead, k`pos
    ensures Building(k) && k.View() == Link(old(k.View()), f, i, PAGE_KERNEL)
    ensures frame == HeadFrame(old(k.View()))
  {
    hide BootInv, HalfOk, Linked, UserKept, Follow, Or, Put, Popped, Entry, HeadFrame;
    ghost var s := k.View();
    GapParts(s, k.kroot, v, up, i);
    HeadStored(s);
    LinkKeeps(s, k.kroot, PAGE_KERNEL, v, up, i);
    var base := GetNextFreePage(k);
    FlagsJoined(HeadFrame(s), PAGE_KERNEL);
    FrameOfAddress(HeadFrame(s));
    frame := base / 4096;
    PutEntry(k, f, i, Or(base, PAGE_KERNEL));
    PutFields(Popped(s), f, i, Entry(HeadFrame(s), PAGE_KERNEL));
    PoppedFields(s);
  }

  lemma GapParts(s: Space, r: nat, v: Word, up: Trail, i: nat)
    requires Gap(s, r, v, up, i)
    ensures BootInv(s) && Follow(s.mem, r, up).Some?
  {
    hide BootInv, Follow;
  }

  lemma PutFields(s: Space, f: nat, i: nat, e: Word)
    ensures var s' := Put(s, f, i, e);
            s'.kroot == s.kroot && s'.base == s.base && s'.frames == s.frames && s'.pos == s.pos
  {
    hide TablesAfter;
  }

  lemma PoppedFields(s: Space)
    ensures var s' := Popped(s);
            s'.kroot == s.kroot && s'.base == s.base && s'.frames == s.frames && s'.pos == s.pos + 1
  {
    hide WritePhys;
  }

  /** table[i] = e. */
  method PutEntry(k: Kernel, f: nat, i: nat, e: Word)
    modifies k`mem, k`tables
    ensures k.View() == Put(old(k.View()), f, i, e)
  {
    k.mem := Write(k.mem, f, i, e);
    k.tables := if f in k.tables then TablesAfter(k.tables, k.kroot, f, i, e) else k.tables;
  }

  lemma HeadStored(s: Space)
    requires BootInv(s) && s.pos < |s.frames|
    ensures s.base % 4096 == 0 && NodeStored(s, s.pos) && HeadFrame(s) == s.frames[s.pos]
  {
    HeadFacts(s);
  }

  lemma EntryValid(s: Space, f: nat, i: nat)
    requires BootInv(s) && f in s.tables && i < SLOTS
    ensures IsValidPage(Read(s.mem, f, i)) <==> Present(Read(s.mem, f, i))
  {
    assert EntryOk(s.mem, s.tables, s.kroot, f, i);
    ValidIsPresent(Read(s.mem, f, i));
  }

  /** The table at the end of a path of tables. */
  lemma TableHere(s: Space, r: nat, t: Trail, f: nat)
    requires BootInv(s) && IsRoot(s.tables, r) && TablePath(t) && Follow(s.mem, r, t) == Some(f)
    ensures f in s.tables
  {
    FollowArrives(s.mem, s.tables, s.kroot, r, t);
  }

  /** pte[pte_offset] = p | PAGE_KERNEL. */
  method WriteLeaf(k: Kernel, pt: nat, v: Word, pAddr: Word, ghost p: nat)
    requires p < FRAME_LIMIT && pAddr == 4096 * p && HeadOk(k)
    modifies k`mem, k`tables
    ensures k.View() == MapPt(old(k.View()), pt, v, p, PAGE_KERNEL)
    ensures HeadOk(k)
  {
    hide Or;
    Offsets(v);
    FlagsJoined(p, PAGE_KERNEL);
    PutEntry(k, pt, And(Shr(v, 12), 0x1ff), Or(pAddr, PAGE_KERNEL));
  }

  /** The page table is missing: link one below the page directory and write the entry. */
  method BuildPd(k: Kernel, pd: nat, v: Word, pAddr: Word, ghost p: nat)
    requires Building(k) && CanMap(k.View(), k.kroot, v, p, PAGE_KERNEL) && pAddr == 4096 * p
    requires Follow(k.mem, k.kroot, Dir2(v)) == Some(pd) && Follow(k.mem, k.kroot, Dir1(v)) == None
    modifies k`mem, k`tables, k`freeListHead, k`pos
    ensures k.View() == MapPd(old(k.View()), pd, v, p, PAGE_KERNEL)
    ensures HeadOk(k)
  {
    hide BootInv, HalfOk, Linked, UserKept, Link, MapPt;
    Offsets(v);
    var pgdOffset := And(Shr(v, 21), 0x1ff);
    var pt := LinkFresh(k, pd, pgdOffset, v, Dir2(v));
    WriteLeaf(k, pt, v, pAddr, p);
  }

  /** The page directory is missing as well. */
  method BuildPdpt(k: Kernel, pdpt: nat, v: Word, pAddr: Word, ghost p: nat)
    requires Building(k) && CanMap(k.View(), k.kroot, v, p, PAGE_KERNEL) && pAddr == 4096 * p
    requires Follow(k.mem, k.kroot, Dir3(v)) == Some(pdpt) && Follow(k.mem, k.kroot, Dir2(v)) == None
    modifies k`mem, k`tables, k`freeListHead, k`pos
    ensures k.View() == MapPdpt(old(k.View()), pdpt, v, p, PAGE_KERNEL)
    ensures HeadOk(k)
  {
    hide BootInv, HalfOk, UserKept, Link, MapPd;
    Offsets(v);
    var pdpeOffset := And(Shr(v, 30), 0x1ff);
    LinkKeeps(k.View(), k.kroot, PAGE_KERNEL, v, Dir3(v), I3(v));
    var pd := LinkFresh(k, pdpt, pdpeOffset, v, Dir3(v));
    BuildPd(k, pd, v, pAddr, p);
  }

  /** All three tables are missing. */
  method BuildPml4(k: Kernel, pml4: nat, v: Word, pAddr: Word, ghost p: nat)
    requires Building(k) && CanMap(k.View(), k.kroot, v, p, PAGE_KERNEL) && pAddr == 4096 * p
    requires pml4 == k.kroot && Follow(k.mem, k.kroot, Dir3(v)) == None
    modifies k`mem, k`tables, k`freeListHead, k`pos
    ensures k.View() == MapDirect(old(k.View()), k.kroot, v, p, PAGE_KERNEL)
    ensures HeadOk(k)
  {
    hide BootInv, HalfOk, UserKept, Link, MapPdpt;
    Offsets(v);
    var pml4Offset := And(Shr(v, 39), 0x1ff);
    assert Follow(k.mem, k.kroot, Root) == Some(pml4);
    LinkKeeps(k.View(), k.kroot, PAGE_KERNEL, v, Root, I4(v));
    var pdpt := LinkFresh(k, pml4, pml4Offset, v, Root);
    assert Follow(k.mem, k.kroot, Dir3(v)) == Some(pdpt);
    assert Follow(k.mem, k.kroot, Dir2(v)) == None;
    BuildPdpt(k, pdpt, v, pAddr, p);
  }

  /** One round of map_all_kernel_pages: the tables are walked by index and missing ones added; the
      page table entry is written whether or not it was in use. */
  method MapOne(k: Kernel, v: Word, pAddr: Word, ghost p: nat)
    requires Building(k) && CanMap(k.View(), k.kroot, v, p, PAGE_KERNEL) && pAddr == 4096 * p
    modifies k`mem, k`tables, k`freeListHead, k`pos
    ensures Building(k)
    ensures k.View() == MapDirect(old(k.View()), k.kroot, v, p, PAGE_KERNEL)
  {
    hide And, Or, Shr, BootInv, HalfOk, MapPt, CanMap, Link, IsRoot, TablePath, Put, Popped, HeadFrame;
    ghost var s, r := k.View(), k.kroot;
    Offsets(v);
    MapKeepsBuilding(s, r, v, p);
    RootIsTable(s, r, v, p);

    var pml4 := (k.kernelPml4 - KERNBASE) / 4096;
    EntryValid(s, pml4, I4(v));
    var pdpe := Read(k.mem, pml4, And(Shr(v, 39), 0x1ff));
    if IsValidPage(pdpe) {
      TableHere(s, r, Dir3(v), Target(pdpe));
      EntryValid(s, Target(pdpe), I3(v));
      var pgde := Read(k.mem, Target(pdpe), And(Shr(v, 30), 0x1ff));
      if IsValidPage(pgde) {
        TableHere(s, r, Dir2(v), Target(pgde));
        EntryValid(s, Target(pgde), I2(v));
        var pte := Read(k.mem, Target(pgde), And(Shr(v, 21), 0x1ff));
        if IsValidPage(pte) {
          WriteLeaf(k, Target(pte), v, pAddr, p);
        } else {
          BuildPd(k, Target(pgde), v, pAddr, p);
        }
      } else {
        BuildPdpt(k, Target(pdpe), v, pAddr, p);
      }
    } else {
      BuildPml4(k, pml4, v, pAddr, p);
    }
  }

  lemma MapKeepsBuilding(s: Space, r: nat, v: Word, p: nat)
    requires CanMap(s, r, v, p, PAGE_KERNEL)
    ensures p < FRAME_LIMIT
    ensures var s' := MapDirect(s, r, v, p, PAGE_KERNEL);
            BootInv(s') && HalfOk(s') && s'.kroot == s.kroot && s'.base == s.base
  {
    hide MapDirect, BootInv, HalfOk;
    MapDirectOutcome(s, r, v, p, PAGE_KERNEL);
  }

  lemma RootIsTable(s: Space, r: nat, v: Word, p: nat)
    requires CanMap(s, r, v, p, PAGE_KERNEL)
    ensures BootInv(s) && IsRoot(s.tables, r) && TablePath(Dir3(v)) && TablePath(Dir2(v)) && TablePath(Dir1(v))
  {
  }

  /** The space after the first n rounds: page i of the run is mapped to frame p + i. */
  function BootRun(s: Space, r: nat, v: Word, p: nat, n: nat): Space
    requires p + n <= FRAME_LIMIT
  {
    if n == 0 then s else MapDirect(BootRun(s, r, v, p, n - 1), r, PageAt(v, n - 1), p + n - 1, PAGE_KERNEL)
  }

  /** What mapping the run needs: the frames for the tables that it is missing. */
  ghost predicate CanBoot(s: Space, r: nat, v: Word, p: nat, n: nat) {
    && BootInv(s) && HalfOk(s) && IsRoot(s.tables, r) && GoodRun(v, n) && p + n <= FRAME_LIMIT
    && s.pos + |Absent(s.mem, r, RunDirs(v, n))| <= |s.frames|
  }

  /** The outcome of n rounds out of a run with table paths ts. */
  ghost predicate BootOutcome(s: Space, s': Space, r: nat, v: Word, p: nat, n: nat, ts: set<Trail>) {
    && BootInv(s') && HalfOk(s')
    && RunMapped(s, s', r, v, Region(p, n))
    && NewTablesTaken(s, s')
    && s'.pos + |Absent(s'.mem, r, ts)| == s.pos + |Absent(s.mem, r, ts)|
    && (UserOk(s.mem, s.tables) && r in s.tables && !s.tables[r].user ==> UserOk(s'.mem, s'.tables))
    && Absent(s'.mem, r, RunDirs(v, n)) == {}
  }

  lemma BootStep(s: Space, r: nat, v: Word, p: nat, k: nat)
    requires p + k < FRAME_LIMIT
    ensures BootRun(s, r, v, p, k + 1) == MapDirect(BootRun(s, r, v, p, k), r, PageAt(v, k), p + k, PAGE_KERNEL)
  {
    hide MapDirect;
  }

  lemma RegionStep(p: nat, k: nat)
    ensures Region(p, k + 1) == Region(p, k) + [p + k]
  {
  }

  lemma {:induction false} RunDirsArePaths(v: Word, n: nat, m: nat)
    requires GoodRun(v, m) && n <= m
    ensures forall t :: t in RunDirs(v, n) ==> TablePath(t)
    ensures RunDirs(v, n) <= RunDirs(v, m)
    decreases m
  {
    hide *;
    if n < m {
      var k: nat := m - 1;
      FewerPages(v, k, m);
      RunDirsArePaths(v, n, k);
      RunDirsGrow(v, k);
    } else if n > 0 {
      var k: nat := n - 1;
      FewerPages(v, k, m);
      RunDirsArePaths(v, k, k);
      RunDirsGrow(v, k);
      DirsArePaths(v, k, m);
    } else {
      NoDirs(v);
    }
  }

  lemma FewerPages(v: Word, k: nat, m: nat)
    requires GoodRun(v, m) && k <= m
    ensures GoodRun(v, k)
  {
  }

  lemma NoDirs(v: Word)
    ensures RunDirs(v, 0) == {}
  {
  }

  lemma DirsArePaths(v: Word, k: nat, m: nat)
    requires GoodRun(v, m) && k < m
    ensures forall t :: t in Dirs(PageAt(v, k)) ==> TablePath(t)
  {
    assert I4(PageAt(v, k)) != SELF;
  }

  lemma RunDirsGrow(v: Word, k: nat)
    ensures RunDirs(v, k + 1) == RunDirs(v, k) + Dirs(PageAt(v, k))
  {
  }

  lemma {:induction false} BootRunOutcome(s: Space, r: nat, v: Word, p: nat, n: nat, total: nat)
    requires CanBoot(s, r, v, p, total) && n <= total
    ensures BootOutcome(s, BootRun(s, r, v, p, n), r, v, p, n, RunDirs(v, total))
    ensures n < total ==> CanMap(BootRun(s, r, v, p, n), r, PageAt(v, n), p + n, PAGE_KERNEL)
    decreases n
  {
    hide MapDirect, Page, RunMapped, NewTablesTaken, BootInv, HalfOk, Dirs, UserOk, CanMap;
    var ts := RunDirs(v, total);
    RunDirsArePaths(v, n, total);
    if n == 0 {
      NothingBooted(s, r, v);
    } else {
      var k: nat := n - 1;
      BootStep(s, r, v, p, k);
      RunDirsArePaths(v, k, total);
      RunDirsArePaths(v, total, total);
      RunDirsGrow(v, k);
      BootRunOutcome(s, r, v, p, k, total);
      var s1 := BootRun(s, r, v, p, k);
      BootRound(s, s1, r, v, p, k, ts);
    }
    NextRound(s, BootRun(s, r, v, p, n), r, v, p, n, total);
  }

  lemma NothingBooted(s: Space, r: nat, v: Word)
    ensures RunMapped(s, s, r, v, []) && NewTablesTaken(s, s)
  {
    forall q, u: Trail | IsRoot(s.tables, q) && u.Legal() && u.Depth() == 4
      ensures RunChange(s.mem, s.mem, r, v, [], q, u)
    {
    }
  }

  lemma BootRound(s: Space, s1: Space, r: nat, v: Word, p: nat, k: nat, ts: set<Trail>)
    requires BootInv(s) && IsRoot(s.tables, r) && p + k < FRAME_LIMIT && GoodRun(v, k + 1)
    requires BootOutcome(s, s1, r, v, p, k, ts) && CanMap(s1, r, PageAt(v, k), p + k, PAGE_KERNEL)
    requires Dirs(PageAt(v, k)) <= ts && RunDirs(v, k) <= ts && forall t :: t in ts ==> TablePath(t)
    ensures BootOutcome(s, MapDirect(s1, r, PageAt(v, k), p + k, PAGE_KERNEL), r, v, p, k + 1, ts)
  {
    hide MapDirect, BootInv, HalfOk, CanMap, UserOk, RunMapped, PageMapped;
    hide NewTablesTaken, Missing, Region, RunDirs, GoodRun, PageAt;
    var w, s2 := PageAt(v, k), MapDirect(s1, r, PageAt(v, k), p + k, PAGE_KERNEL);
    MapDirectOutcome(s1, r, w, p + k, PAGE_KERNEL);
    BootRoundMaps(s, s1, s2, r, v, p, k);
    BootRoundCounts(s1, r, v, p, k, ts);
    BootRoundUser(s, s1, s2, r, v, p, k);
  }

  lemma BootRoundMaps(s: Space, s1: Space, s2: Space, r: nat, v: Word, p: nat, k: nat)
    requires RunMapped(s, s1, r, v, Region(p, k)) && PageMapped(s1, s2, r, PageAt(v, k), p + k)
    requires NewTablesTaken(s, s1) && NewTablesTaken(s1, s2)
    ensures RunMapped(s, s2, r, v, Region(p, k + 1)) && NewTablesTaken(s, s2)
  {
    hide RunChange, PathChange, Page;
    RegionStep(p, k);
    RunThenPage(s, s1, s2, r, v, Region(p, k), p + k, k + 1);
    TakenThen(s, s1, s2);
  }

  lemma BootRoundCounts(s1: Space, r: nat, v: Word, p: nat, k: nat, ts: set<Trail>)
    requires p + k < FRAME_LIMIT && CanMap(s1, r, PageAt(v, k), p + k, PAGE_KERNEL)
    requires Dirs(PageAt(v, k)) <= ts && RunDirs(v, k) <= ts && forall t :: t in ts ==> TablePath(t)
    requires Absent(s1.mem, r, RunDirs(v, k)) == {}
    ensures var s2 := MapDirect(s1, r, PageAt(v, k), p + k, PAGE_KERNEL);
            |Absent(s2.mem, r, ts)| == |Absent(s1.mem, r, ts)| - Missing(s1.mem, r, PageAt(v, k)) &&
            Absent(s2.mem, r, RunDirs(v, k + 1)) == {}
  {
    hide MapDirect, Page, BootInv, Dirs, Missing;
    var w, s2 := PageAt(v, k), MapDirect(s1, r, PageAt(v, k), p + k, PAGE_KERNEL);
    MapDirectDirs(s1, r, w, p + k, PAGE_KERNEL);
    AbsentShrinks(s1.mem, s2.mem, r, w, ts);
    RunDirsGrow(v, k);
    forall t | t in RunDirs(v, k + 1)
      ensures Follow(s2.mem, r, t).Some?
    {
      assert DirChange(s1.mem, s2.mem, r, Dirs(w), t);
      if t in RunDirs(v, k) { assert t !in Absent(s1.mem, r, RunDirs(v, k)); }
    }
  }

  lemma BootRoundUser(s: Space, s1: Space, s2: Space, r: nat, v: Word, p: nat, k: nat)
    requires RunMapped(s, s1, r, v, Region(p, k)) && UserKept(s1, s2, r, PageAt(v, k), PAGE_KERNEL)
    requires UserOk(s.mem, s.tables) && r in s.tables && !s.tables[r].user ==> UserOk(s1.mem, s1.tables)
    ensures UserOk(s.mem, s.tables) && r in s.tables && !s.tables[r].user ==> UserOk(s2.mem, s2.tables)
  {
  }

  /** As long as pages of the run are left, the frames for their missing tables are there. */
  lemma NextRound(s: Space, s1: Space, r: nat, v: Word, p: nat, n: nat, total: nat)
    requires CanBoot(s, r, v, p, total) && n <= total && BootOutcome(s, s1, r, v, p, n, RunDirs(v, total))
    ensures n < total ==> CanMap(s1, r, PageAt(v, n), p + n, PAGE_KERNEL)
  {
    hide BootInv, HalfOk, UserOk, RunChange, Dirs, Absent, Missing, Region, RunDirs, Page;
    if n < total {
      var w := PageAt(v, n);
      RunDirsGrow(v, n);
      RunDirsArePaths(v, n + 1, total);
      MissingIsAbsent(s1.mem, r, w);
      SmallerAbsent(s1.mem, r, Dirs(w), RunDirs(v, total));
    }
  }

  lemma SmallerAbsent(m: Memory, r: nat, a: set<Trail>, b: set<Trail>)
    requires a <= b
    ensures |Absent(m, r, a)| <= |Absent(m, r, b)|
  {
    SubsetSize(Absent(m, r, a), Absent(m, r, b));
  }

  lemma SubsetSize<T>(a: set<T>, b: set<T>)
    requires a <= b
    ensures |a| <= |b|
  {
    assert b == a + (b - a);
  }

  /** How many pages the loop of map_all_kernel_pages visits: those that start at or below vEnd. */
  function PagesThrough(v: nat, vEnd: nat): nat {
    if v <= vEnd then (vEnd - v) / 4096 + 1 else 0
  }

  /** map_all_kernel_pages: maps the pages from align(vStart) through vEnd to consecutive frames, and
      takes one frame for each table that was missing on their paths, and no more. */
  method MapAllKernelPages(k: Kernel, vStart: Word, vEnd: Word, pStart: Word)
    requires Building(k) && vEnd + 4096 < WORD_LIMIT
    requires CanBoot(k.View(), k.kroot, vStart / 4096 * 4096, pStart / 4096, PagesThrough(vStart / 4096 * 4096, vEnd))
    modifies k`mem, k`tables, k`freeListHead, k`pos
    ensures Building(k)
    ensures var (v, n) := (vStart / 4096 * 4096, PagesThrough(vStart / 4096 * 4096, vEnd));
      && k.View() == BootRun(old(k.View()), k.kroot, v, pStart / 4096, n)
      && BootOutcome(old(k.View()), k.View(), k.kroot, v, pStart / 4096, n, RunDirs(v, n))
      && k.pos == old(k.pos) + |Absent(old(k.mem), k.kroot, RunDirs(v, n))|
  {
    hide MapDirect, BootRun, BootInv, HalfOk, CanBoot, CanMap, RunMapped, Absent, RunDirs, UserOk, NewTablesTaken;
    ghost var s, r, v0, p0 := k.View(), k.kroot, vStart / 4096 * 4096, pStart / 4096;
    ghost var n := PagesThrough(v0, vEnd);
    CanBootFacts(s, r, v0, p0, n);
    BootZero(s, r, v0, p0);
    ghost var i: nat := 0;
    var v: Word, p: Word := vStart / PAGESIZE * PAGESIZE, pStart / PAGESIZE * PAGESIZE;
    while v <= vEnd
      invariant i <= n && v == v0 + 4096 * i && p == 4096 * (p0 + i)
      invariant v <= vEnd <==> i < n
      invariant Building(k) && k.View() == BootRun(s, r, v0, p0, i) && k.kroot == r
      decreases n - i
    {
      BootRunOutcome(s, r, v0, p0, i, n);
      BootStep(s, r, v0, p0, i);
      MapOne(k, v, p, p0 + i);
      PageCount(v0, vEnd, i);
      v := v + PAGESIZE;
      p := p + PAGESIZE;
      i := i + 1;
    }
    BootRunOutcome(s, r, v0, p0, n, n);
    NoneAbsent(k.mem, r, RunDirs(v0, n));
  }

  lemma CanBootFacts(s: Space, r: nat, v: Word, p: nat, n: nat)
    requires CanBoot(s, r, v, p, n)
    ensures v + 4096 * n < WORD_LIMIT && p + n <= FRAME_LIMIT
  {
  }

  lemma BootZero(s: Space, r: nat, v: Word, p: nat)
    requires p <= FRAME_LIMIT
    ensures BootRun(s, r, v, p, 0) == s
  {
  }

  lemma PageCount(v: nat, vEnd: nat, i: nat)
    requires i < PagesThrough(v, vEnd)
    ensures v + 4096 * (i + 1) <= vEnd <==> i + 1 < PagesThrough(v, vEnd)
  {
  }

  lemma NoneAbsent(m: Memory, r: nat, ts: set<Trail>)
    requires Absent(m, r, ts) == {}
    ensures |Absent(m, r, ts)| == 0
  {
  }

  // ---- The kernel's PML4 ----

  /** The list as set_free_list_head leaves it: its nodes are stored, and the frames left on it are
      different zeroed frames, none of them holding the list. */
  ghost predicate ListReady(s: Space) {
    && s.base % 4096 == 0 && 0 < s.base && s.pos <= |s.frames|
    && (forall j :: s.pos <= j < |s.frames| ==> NodeStored(s, j))
    && (forall i, j :: 0 <= i < j < |s.frames| ==> s.frames[i] != s.frames[j])
    && (forall j :: s.pos <= j < |s.frames| ==>
          0 < s.frames[j] < FRAME_LIMIT && !ListFrame(s, s.frames[j]) && ZeroFrame(s.mem, s.frames[j]))
  }

  /** The space with frame f as its only table: a PML4 that refers to itself. */
  function FirstRoot(s: Space, f: nat): Space
    requires f < FRAME_LIMIT
  {
    s.(mem := Write(s.mem, f, SELF, Entry(f, PAGE_KERNEL)), tables := map[f := RootNode(f, false)], kroot := f)
  }

  /** A single PML4 that maps nothing. */
  ghost predicate Bare(s: Space) {
    && BootInv(s) && s.tables == map[s.kroot := RootNode(s.kroot, false)]
    && Read(s.mem, s.kroot, KERNEL_HALF) == 0
    && forall t: Trail {:trigger Follow(s.mem, s.kroot, t)} ::
         t.Down? && t.Legal() && t.Direct() ==> Follow(s.mem, s.kroot, t) == None
  }

  lemma FirstRootIsBare(s: Space)
    requires ListReady(s) && s.pos < |s.frames|
    ensures s.frames[s.pos] < FRAME_LIMIT && Bare(FirstRoot(Popped(s), s.frames[s.pos]))
  {
    hide Popped, NodeStored, TreeOk, ListOk, FreeOk;
    var f, s1 := s.frames[s.pos], Popped(s);
    var s2 := FirstRoot(s1, f);
    PopReady(s);
    PoppedFields(s);
    FirstTree(s1, f);
    FirstList(s1, f);
    forall t: Trail | t.Down? && t.Legal() && t.Direct()
      ensures Follow(s2.mem, f, t) == None
    {
      BareMapsNothing(s1.mem, s2.mem, f, t);
    }
    assert Read(s1.mem, f, KERNEL_HALF) == 0;
  }

  /** A zeroed frame with the self-reference is a forest by itself. */
  lemma FirstTree(s: Space, f: nat)
    requires 0 < f < FRAME_LIMIT && ZeroFrame(s.mem, f)
    ensures var s' := FirstRoot(s, f); TreeOk(s'.mem, s'.tables, s'.kroot)
  {
    var s' := FirstRoot(s, f);
    forall i | 0 <= i < SLOTS
      ensures EntryOk(s'.mem, s'.tables, f, f, i)
    {
      assert Read(s.mem, f, i) == 0;
    }
  }

  /** The list does not notice. */
  lemma FirstList(s: Space, f: nat)
    requires ListReady(s) && 0 < s.pos && s.frames[s.pos - 1] == f && !ListFrame(s, f) && f < FRAME_LIMIT
    ensures ListOk(FirstRoot(s, f)) && FreeOk(FirstRoot(s, f))
  {
    var s' := FirstRoot(s, f);
    forall j | s'.pos <= j < |s'.frames|
      ensures NodeStored(s', j)
      ensures FreeFrame(s', j) && ZeroFrame(s'.mem, s'.frames[j])
    {
      RootOffNodes(s, f, j);
      assert ZeroFrame(s.mem, s.frames[j]);
      assert forall n :: 0 <= n < SLOTS ==> Read(s'.mem, s.frames[j], n) == Read(s.mem, s.frames[j], n);
    }
  }

  lemma PopReady(s: Space)
    requires ListReady(s) && s.pos < |s.frames|
    ensures ListReady(Popped(s)) && ZeroFrame(Popped(s).mem, s.frames[s.pos])
  {
    var s' := Popped(s);
    StatusFrame(s);
    forall j | s.pos <= j < |s.frames|
      ensures NodeStored(s', j)
      ensures ZeroFrame(s'.mem, s.frames[j])
    {
      var a, b := NodeAddress(s, s.pos) + 8, NodeAddress(s, j);
      assert NodeStored(s, j);
      NodeFields(s.base, s.pos, j);
      NodeFields(s.base, j, s.pos);
      PhysDistinct(s.mem, a, 1, b);
      PhysDistinct(s.mem, a, 1, b + 16);
      assert ZeroFrame(s.mem, s.frames[j]);
      assert forall n :: 0 <= n < SLOTS ==> Read(s'.mem, s.frames[j], n) == Read(s.mem, s.frames[j], n);
    }
  }

  lemma StatusFrame(s: Space)
    requires s.base % 4096 == 0 && s.pos < |s.frames|
    ensures ListFrame(s, (NodeAddress(s, s.pos) + 8) / 4096)
  {
  }

  lemma RootOffNodes(s: Space, f: nat, j: nat)
    requires ListReady(s) && s.pos <= j < |s.frames| && !ListFrame(s, f) && f < FRAME_LIMIT
    ensures NodeStored(FirstRoot(s, f), j)
  {
    assert NodeStored(s, j);
    var b := NodeAddress(s, j);
    assert ListFrame(s, b / 4096) && ListFrame(s, (b + 16) / 4096);
  }

  lemma {:induction false} BareMapsNothing(m: Memory, m': Memory, f: nat, t: Trail)
    requires f < FRAME_LIMIT && ZeroFrame(m, f) && m' == Write(m, f, SELF, Entry(f, PAGE_KERNEL))
    requires t.Down? && t.Legal() && t.Direct()
    ensures Follow(m', f, t) == None
    decreases t
  {
    if t.up.Root? {
      assert Read(m, f, t.index) == 0;
    } else {
      BareMapsNothing(m, m', f, t.up);
    }
  }

  /** create_kernel_pml4: a frame for the PML4, its entry 510 referring to itself. */
  method CreateKernelPml4(k: Kernel) returns (kernelCr3: Word)
    requires ListReady(k.View()) && HeadOk(k) && k.pos < |k.frames| && k.frames[k.pos] < WINDOW_LIMIT
    modifies k`mem, k`tables, k`kroot, k`freeListHead, k`pos, k`kernelPml4
    ensures k.View() == FirstRoot(Popped(old(k.View())), old(k.frames[k.pos]))
    ensures kernelCr3 == 4096 * k.kroot && Bare(k.View()) && Building(k)
  {
    hide Or, Bare, ListReady, BootInv, HalfOk, Popped, NodeStored;
    ghost var s := k.View();
    FirstRootIsBare(s);
    ReadyNode(s);
    var pml4 := GetNextFreePage(k);
    ghost var f := s.frames[s.pos];
    FrameOfAddress(f);
    FlagsJoined(f, PAGE_KERNEL);
    kernelCr3 := pml4;
    k.kernelPml4 := pml4 + KERNBASE;
    k.mem := Write(k.mem, pml4 / 4096, 510, Or(pml4, PAGE_KERNEL));
    k.tables := map[f := RootNode(f, false)];
    k.kroot := f;
    BareIsBuilding(k.View());
  }

  lemma ReadyNode(s: Space)
    requires ListReady(s) && s.pos < |s.frames|
    ensures s.base % 4096 == 0 && 0 < s.base && NodeStored(s, s.pos)
  {
  }

  lemma BareIsBuilding(s: Space)
    requires Bare(s)
    ensures BootInv(s) && HalfOk(s) && UserOk(s.mem, s.tables)
  {
    forall f, i | f in s.tables && 0 <= i < SLOTS
      ensures UserEntryOk(s.mem, s.tables, f, i)
    {
    }
  }
}
