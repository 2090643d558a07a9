/** Whole runs of the kernel: any sequence of heap allocations, new address spaces, user mappings,
    switches of CR3 and writes to data, each with the effect that its method has. */
module Runs {
  import opened Words
  import opened Mmu
  import opened PageTree
  import opened AddressSpace
  import opened Mapping
  import opened Ranges
  import opened Spaces
  import opened Heap

  /** The space, the PML4 in use and the top of the heap. */
  datatype System = System(space: Space, root: nat, top: Word)

  datatype Op =
    | Allocate(n: nat, flags: Word)          // kmalloc, kmalloc_user
    | CreateSpace(flags: Word)               // get_next_free_page_kmalloc; create_new_*_pml4
    | MapUser(v: Word, pages: nat)           // kmalloc_top_virtual_address_user
    | Switch(to: nat)                        // set_cr3
    | WriteData(frame: nat, index: nat, w: Word)

  /** What holds between operations. */
  ghost predicate Good(y: System) {
    && Inv(y.space)
    && IsRoot(y.space.tables, y.root)
    && HeapOk(y.space, y.top)
    && UserOk(y.space.mem, y.space.tables)
    && !UserBit(Read(y.space.mem, y.space.kroot, KERNEL_HALF))
  }

  /** User mappings are made outside slots 510 and 511. */
  predicate UserRun(v: Word, n: nat) {
    forall i :: 0 <= i < n ==> I4(PageAt(v, i)) < SELF
  }

  /** How many pages a user mapping maps before it meets a mapped one. */
  function FreePages(y: System, v: Word, n: nat): (j: nat)
    ensures j <= n
  {
    FreePrefix(y.space.mem, y.root, v, n)
  }

  /** What the kernel makes sure of, or has to have, before it calls an operation. */
  ghost predicate Enabled(y: System, op: Op) {
    match op
    case Allocate(n, flags) =>
      Flags(flags) && y.top + 4096 * n < WORD_LIMIT && RunFits(y.space, y.root, y.top, n, flags)
    case CreateSpace(flags) =>
      Flags(flags) && y.top + 4096 < WORD_LIMIT && RoundFits(y.space, y.root, y.top)
    case MapUser(v, n) =>
      CanAllocate(y.space, y.root, v, n, PAGE_USER) && UserRun(v, n)
    case Switch(to) => IsRoot(y.space.tables, to)
    case WriteData(f, i, w) => DataFrame(y.space, f) && i < SLOTS
  }

  function Do(y: System, op: Op): System
    requires Enabled(y, op)
  {
    match op
    case Allocate(n, flags) => System(MapRun(y.space, y.root, y.top, n, flags), y.root, y.top + 4096 * n)
    case CreateSpace(flags) =>
      System(AddSpace(MapNext(y.space, y.root, y.top, flags), HeadFrame(y.space), flags), y.root, y.top + 4096)
    case MapUser(v, n) => y.(space := Allocated(y.space, y.root, v, n, PAGE_USER))
    case Switch(to) => y.(root := to)
    case WriteData(f, i, w) => y.(space := y.space.(mem := Write(y.space.mem, f, i, w)))
  }

  // ---- What one operation does ----

  /** The paths that an operation may change: those of the heap pages it maps, in the shared
      half, and those of the user pages it maps, in its own space. */
  predicate Changed(y: System, op: Op, q: nat, u: Trail)
    requires u.Down?
  {
    match op
    case Allocate(n, flags) => u.Head() == KERNEL_HALF && exists i :: 0 <= i < n && u == Page(PageAt(y.top, i))
    case CreateSpace(flags) => u == Page(y.top)
    case MapUser(v, n) => q == y.root && exists i :: 0 <= i < FreePages(y, v, n) && u == Page(PageAt(v, i))
    case Switch(_) => false
    case WriteData(_, _, _) => false
  }

  /** How an operation treats the pages of the spaces that exist before it. */
  ghost predicate Step(y: System, y': System, op: Op) {
    && y'.space.kroot == y.space.kroot && y'.space.frames == y.space.frames && y.space.pos <= y'.space.pos
    && y.top <= y'.top
    && Read(y'.space.mem, y.space.kroot, KERNEL_HALF) == Read(y.space.mem, y.space.kroot, KERNEL_HALF)
    && (forall f :: IsRoot(y.space.tables, f) ==> IsRoot(y'.space.tables, f))
    && (forall f :: DataFrame(y.space, f) ==> DataFrame(y'.space, f))
    && (forall q, u: Trail {:trigger Kept(y, y', op, q, u)} ::
          IsRoot(y.space.tables, q) && u.Legal() && u.Depth() == 4 && u.Direct() ==> Kept(y, y', op, q, u))
  }

  predicate Kept(y: System, y': System, op: Op, q: nat, u: Trail)
    requires u.Down?
  {
    !Changed(y, op, q, u) ==> Follow(y'.space.mem, q, u) == Follow(y.space.mem, q, u)
  }

  /** A run that is mapped changes only the pages of the run, for those who see them. */
  lemma RunKept(s: Space, s': Space, r: nat, v: Word, fs: seq<nat>, q: nat, u: Trail)
    requires RunMapped(s, s', r, v, fs) && GoodRun(v, |fs|) && IsRoot(s.tables, q)
    requires u.Legal() && u.Depth() == 4 && u.Direct()
    requires !Sees(r, q, u) || forall i :: 0 <= i < |fs| ==> u != Page(PageAt(v, i))
    ensures Follow(s'.mem, q, u) == Follow(s.mem, q, u)
  {
    assert RunChange(s.mem, s'.mem, r, v, fs, q, u);
    PlacedAt(v, fs, |fs|, u);
  }

  lemma DataFramesKept(s: Space, s': Space)
    requires Extends(s, s') && NewTablesTaken(s, s')
    ensures forall f :: DataFrame(s, f) ==> DataFrame(s', f)
  {
    forall f | DataFrame(s, f)
      ensures DataFrame(s', f)
    {
      DataFrameKept(s, s', f);
    }
  }

  lemma AllocateStep(y: System, n: nat, flags: Word)
    requires Good(y) && Enabled(y, Allocate(n, flags))
    ensures var op := Allocate(n, flags); Good(Do(y, op)) && Step(y, Do(y, op), op)
  {
    hide MapRun, RunFrames, Translate, Inv, Page;
    var op, s := Allocate(n, flags), y.space;
    var fs, s' := RunFrames(s, y.root, y.top, n, flags), MapRun(s, y.root, y.top, n, flags);
    BlockOutcome(s, y.root, y.top, n, flags);
    HeapPagesFree(s, y.root, y.top, n);
    RunOutcome(s, y.root, y.top, n, flags);
    DataFramesKept(s, s');
    HalfPresent(s);
    forall q, u: Trail | IsRoot(s.tables, q) && u.Legal() && u.Depth() == 4 && u.Direct()
      ensures Kept(y, Do(y, op), op, q, u)
    {
      if !Changed(y, op, q, u) {
        forall i | 0 <= i < n
          ensures u != Page(PageAt(y.top, i))
        {
          KernelAddress(PageAt(y.top, i));
        }
        RunKept(s, s', y.root, y.top, fs, q, u);
      }
    }
  }

  lemma HalfPresent(s: Space)
    requires Inv(s)
    ensures Present(Read(s.mem, s.kroot, KERNEL_HALF)) && BootInv(s) && HalfOk(s)
  {
  }

  lemma MapUserStep(y: System, v: Word, n: nat)
    requires Good(y) && Enabled(y, MapUser(v, n))
    ensures var op := MapUser(v, n); Good(Do(y, op)) && Step(y, Do(y, op), op)
  {
    hide MapRun, RunFrames, Translate, Inv, Page, Allocated, FreePrefix, UserOk;
    var op, s, j := MapUser(v, n), y.space, FreePages(y, v, n);
    var fs, s' := RunFrames(s, y.root, v, j, PAGE_USER), Allocated(s, y.root, v, n, PAGE_USER);
    AllocatedOutcome(s, y.root, v, n, PAGE_USER);
    DataFramesKept(s, s');
    HalfPresent(s);
    UserAllocated(s, y.root, v, n);
    forall q, u: Trail | IsRoot(s.tables, q) && u.Legal() && u.Depth() == 4 && u.Direct()
      ensures Kept(y, Do(y, op), op, q, u)
    {
      if !Changed(y, op, q, u) {
        forall i | 0 <= i < j && u == Page(PageAt(v, i))
          ensures !Sees(y.root, q, u)
        {
          assert u.Head() == I4(PageAt(v, i));
        }
        RunKept(s, s', y.root, v, fs, q, u);
      }
    }
    forall w: Word | w >= y.top
      ensures Unmapped(s', w)
    {
      AboveUser(y, Do(y, op), v, n, w);
    }
  }

  /** User mappings stay below the shared half. */
  lemma AboveUser(y: System, y': System, v: Word, n: nat, w: Word)
    requires Good(y) && w >= y.top && UserRun(v, n) && y'.space.kroot == y.space.kroot
    requires forall q, u: Trail {:trigger Kept(y, y', MapUser(v, n), q, u)} ::
               IsRoot(y.space.tables, q) && u.Legal() && u.Depth() == 4 && u.Direct() ==>
                 Kept(y, y', MapUser(v, n), q, u)
    ensures Unmapped(y'.space, w)
  {
    hide Inv, Page, Follow;
    KernelAddress(w);
    RootIsRoot(y);
    assert Unmapped(y.space, w);
    assert Kept(y, y', MapUser(v, n), y.space.kroot, Page(w));
    assert forall i :: 0 <= i < n ==> Page(w).Head() != Page(PageAt(v, i)).Head();
  }

  lemma UserAllocated(s: Space, r: nat, v: Word, n: nat)
    requires CanAllocate(s, r, v, n, PAGE_USER) && UserOk(s.mem, s.tables)
    ensures UserOk(Allocated(s, r, v, n, PAGE_USER).mem, Allocated(s, r, v, n, PAGE_USER).tables)
  {
    hide MapRun, Inv, Page, UserOk;
    var j := FreePrefix(s.mem, r, v, n);
    RunKeepsUser(s, r, v, j, PAGE_USER);
    if j < n {
      var s1 := MapRun(s, r, v, j, PAGE_USER);
      RunOutcome(s, r, v, j, PAGE_USER);
      PopKeepsUser(s1, v);
    }
  }

  lemma PopKeepsUser(s: Space, v: Word)
    requires Inv(s) && s.pos < |s.frames| && UserOk(s.mem, s.tables)
    ensures UserOk(Popped(s).mem, Popped(s).tables)
  {
    PopKeepsBoot(s);
    SameTree(s.mem, Popped(s).mem, s.tables, s.kroot);
  }

  /** The frame for the new PML4 comes off the list, is mapped at the top of the heap, and is then
      filled; the outcome of the first two. */
  lemma CreateMaps(y: System, flags: Word)
    requires Good(y) && Enabled(y, CreateSpace(flags))
    ensures var s1 := MapNext(y.space, y.root, y.top, flags); var p := HeadFrame(y.space);
      && Inv(s1) && PageMapped(y.space, s1, y.root, y.top, p) && NewTablesTaken(y.space, s1)
      && UserOk(s1.mem, s1.tables)
      && DataFrame(s1, p) && ZeroFrame(s1.mem, p) && !OffList(y.space, p)
    ensures Follow(y.space.mem, y.root, Page(y.top)) == None && I4(y.top) == KERNEL_HALF
  {
    hide MapDirect, Translate, Inv, CanMap;
    var s := y.space;
    KernelAddress(y.top);
    assert Unmapped(s, y.top);
    InvTree(s);
    SharedHalf(s.mem, s.tables, s.kroot, y.root, Page(y.top));
    HalfPresent(s);
    RoundOutcome(s, y.root, y.top, flags);
    var p, s0, s1 := HeadFrame(s), Popped(s), MapNext(s, y.root, y.top, flags);
    TakenIsData(s);
    HeadFacts(s);
    PopKeeps(s);
    MapDirectOutcome(s0, y.root, y.top, p, flags);
    DataFrameKept(s0, s1, p);
  }

  lemma CreateStep(y: System, flags: Word)
    requires Good(y) && Enabled(y, CreateSpace(flags))
    ensures var op := CreateSpace(flags); Good(Do(y, op)) && Step(y, Do(y, op), op)
    ensures var s', p := Do(y, CreateSpace(flags)).space, HeadFrame(y.space);
            IsRoot(s'.tables, p) && s'.tables[p].user == (flags == PAGE_USER)
  {
    hide MapNext, AddSpace, Translate, Inv, Page;
    var op, s, p := CreateSpace(flags), y.space, HeadFrame(y.space);
    var s1 := MapNext(s, y.root, y.top, flags);
    var s2 := AddSpace(s1, p, flags);
    CreateMaps(y, flags);
    AddSpaceOutcome(s1, p, flags);
    DataFramesKept(s, s1);
    HalfPresent(s);
    forall q, u: Trail | IsRoot(s.tables, q) && u.Legal() && u.Depth() == 4 && u.Direct()
      ensures Kept(y, Do(y, op), op, q, u)
    {
      assert PathChange(s.mem, s1.mem, y.root, Page(y.top), p, q, u);
      assert Follow(s2.mem, q, u) == Follow(s1.mem, q, u);
    }
    forall f | DataFrame(s, f)
      ensures DataFrame(s2, f)
    {
      assert DataFrame(s1, f) && f != p;
    }
    CreatedHeap(y, flags);
  }

  /** The heap goes on above the page of the new PML4. */
  lemma CreatedHeap(y: System, flags: Word)
    requires Good(y) && Enabled(y, CreateSpace(flags))
    ensures HeapOk(Do(y, CreateSpace(flags)).space, y.top + 4096)
  {
    hide Inv, Page, Follow, Popped, MapDirect, AddSpace, CanMap, HeapOk;
    var s, p := y.space, HeadFrame(y.space);
    CreateMaps(y, flags);
    HalfPresent(s);
    RoundOutcome(s, y.root, y.top, flags);
    TakenIsData(s);
    PopKeeps(s);
    PoppedHeap(s, y.top);
    TopAligned4096(y);
    HeapAfterCreation(Popped(s), y.root, y.top, p, flags);
  }

  lemma PoppedHeap(s: Space, top: Word)
    requires Inv(s) && s.pos < |s.frames| && HeapOk(s, top)
    ensures HeapOk(Popped(s), top)
  {
    hide Inv, Page, Follow;
    HalfPresent(s);
    KernelRoot(s);
    PopExtends(s, s.kroot, top);
    forall w: Word | w >= top
      ensures Unmapped(Popped(s), w)
    {
      assert Unmapped(s, w);
      PagePath(w);
      assert Follow(Popped(s).mem, s.kroot, Page(w)) == Follow(s.mem, s.kroot, Page(w));
    }
  }

  lemma KernelRoot(s: Space)
    requires Inv(s)
    ensures IsRoot(s.tables, s.kroot)
  {
  }

  lemma PagePath(w: Word)
    ensures Page(w).Legal() && Page(w).Depth() == 4
  {
  }

  lemma RootIsRoot(y: System)
    requires Good(y)
    ensures IsRoot(y.space.tables, y.space.kroot)
  {
  }

  lemma WriteStep(y: System, f: nat, i: nat, w: Word)
    requires Good(y) && Enabled(y, WriteData(f, i, w))
    ensures var op := WriteData(f, i, w); Good(Do(y, op)) && Step(y, Do(y, op), op)
  {
    hide Translate, Inv, Page;
    var op, s := WriteData(f, i, w), y.space;
    var s' := Do(y, op).space;
    DataWrite(s, f, i, w);
    InvTree(s);
    forall q, u: Trail | IsRoot(s.tables, q) && u.Legal() && u.Depth() == 4
      ensures Follow(s'.mem, q, u) == Follow(s.mem, q, u)
    {
      SameFollow(s.mem, s'.mem, s.tables, s.kroot, q, u);
    }
    forall a: Word | a >= y.top
      ensures Unmapped(s', a)
    {
      assert Unmapped(s, a);
    }
  }

  /** Every operation keeps what holds between operations, and changes no page but those it maps. */
  lemma StepOutcome(y: System, op: Op)
    requires Good(y) && Enabled(y, op)
    ensures Good(Do(y, op)) && Step(y, Do(y, op), op)
  {
    match op
    case Allocate(n, flags) => AllocateStep(y, n, flags);
    case CreateSpace(flags) => CreateStep(y, flags);
    case MapUser(v, n) => MapUserStep(y, v, n);
    case Switch(to) =>
    case WriteData(f, i, w) => WriteStep(y, f, i, w);
  }

  // ---- Runs ----

  ghost predicate AllEnabled(y: System, ops: seq<Op>)
    decreases |ops|
  {
    ops == [] || (Enabled(y, ops[0]) && AllEnabled(Do(y, ops[0]), ops[1..]))
  }

  function Run(y: System, ops: seq<Op>): System
    requires AllEnabled(y, ops)
    decreases |ops|
  {
    if ops == [] then y else Run(Do(y, ops[0]), ops[1..])
  }

  /** In every reachable state the invariant holds, slot 511 of the kernel is what it was, every
      PML4 still is one, and every data frame still is one. */
  lemma {:induction false} RunKeeps(y: System, ops: seq<Op>)
    requires Good(y) && AllEnabled(y, ops)
    ensures var y' := Run(y, ops);
      && Good(y')
      && y'.space.kroot == y.space.kroot && y.top <= y'.top
      && y'.space.frames == y.space.frames && y.space.pos <= y'.space.pos
      && Read(y'.space.mem, y.space.kroot, KERNEL_HALF) == Read(y.space.mem, y.space.kroot, KERNEL_HALF)
      && (forall f :: IsRoot(y.space.tables, f) ==> IsRoot(y'.space.tables, f))
      && (forall f :: DataFrame(y.space, f) ==> DataFrame(y'.space, f))
    decreases |ops|
  {
    hide Good, Do;
    if ops != [] {
      StepOutcome(y, ops[0]);
      RunKeeps(Do(y, ops[0]), ops[1..]);
    }
  }

  /** Kernel-half agreement: at the end of any run, every address space, old or new, holds the
      slot 511 entry that the kernel held at the start, all translate that half alike, and user code
      may access none of its addresses. Stores of user code through slot 510 are no operations of
      a run; Protection says which others there are, and when there are none through slot 510. */
  lemma KernelHalfAgreement(y: System, ops: seq<Op>, q: nat, r: nat, w: Word)
    requires Good(y) && AllEnabled(y, ops) && I4(w) == KERNEL_HALF
    requires IsRoot(Run(y, ops).space.tables, q) && IsRoot(Run(y, ops).space.tables, r)
    ensures var m := Run(y, ops).space.mem;
      && Read(m, q, KERNEL_HALF) == Read(y.space.mem, y.space.kroot, KERNEL_HALF)
      && Translate(m, q, w) == Translate(m, r, w)
      && !UserAccess(m, q, w)
  {
    hide Page, Do, Run, AllEnabled;
    RunKeeps(y, ops);
    var s := Run(y, ops).space;
    assert EntryOk(s.mem, s.tables, s.kroot, q, KERNEL_HALF);
    SharedHalf(s.mem, s.tables, s.kroot, q, Page(w));
    SharedHalf(s.mem, s.tables, s.kroot, r, Page(w));
    SharedHalfGuarded(s.mem, s.tables, s.kroot, q, Page(w));
  }

  /** What an operation changes was not mapped before. */
  lemma ChangedWasFree(y: System, op: Op, q: nat, u: Trail)
    requires Good(y) && Enabled(y, op) && IsRoot(y.space.tables, q)
    requires u.Down? && u.Legal() && Changed(y, op, q, u)
    ensures Follow(y.space.mem, q, u) == None
  {
    hide Page, Translate;
    match op
    case Allocate(n, flags) => HeapPagesFree(y.space, q, y.top, n);
    case CreateSpace(flags) => HeapPagesFree(y.space, q, y.top, 1); assert u == Page(PageAt(y.top, 0));
    case MapUser(v, n) =>
  }

  /** Mappings are for good: what an address space maps outside slot 510, in either half, it maps
      to the same place at the end of any run. */
  lemma {:induction false} MappingsStay(y: System, ops: seq<Op>, q: nat, u: Trail)
    requires Good(y) && AllEnabled(y, ops) && IsRoot(y.space.tables, q)
    requires u.Legal() && u.Depth() == 4 && u.Direct() && Follow(y.space.mem, q, u).Some?
    ensures Follow(Run(y, ops).space.mem, q, u) == Follow(y.space.mem, q, u)
    decreases |ops|
  {
    hide Good, Do, Changed, Follow;
    if ops != [] {
      var y1 := Do(y, ops[0]);
      StepOutcome(y, ops[0]);
      assert Kept(y, y1, ops[0], q, u);
      if Changed(y, ops[0], q, u) {
        ChangedWasFree(y, ops[0], q, u);
      }
      MappingsStay(y1, ops[1..], q, u);
    }
  }

  /** Physical address a is mapped at KERNBASE plus a. */
  predicate KernelMaps(m: Memory, r: nat, a: nat) {
    a < 0x8000_0000 && Translate(m, r, 0xffff_ffff_8000_0000 + a) == Some(a)
  }

  /** What the kernel's PML4 maps so it does for good, and every address space with it. */
  lemma KernelMapsStay(y: System, ops: seq<Op>, r: nat, a: nat)
    requires Good(y) && AllEnabled(y, ops) && KernelMaps(y.space.mem, y.space.kroot, a)
    requires IsRoot(Run(y, ops).space.tables, r)
    ensures KernelMaps(Run(y, ops).space.mem, r, a)
  {
    hide Good, AllEnabled, Run, Follow, Page;
    var w: Word := 0xffff_ffff_8000_0000 + a;
    var y' := Run(y, ops);
    RunKeeps(y, ops);
    RootOfGood(y);
    RootOfGood(y');
    KernelAddress(w);
    PagePath(w);
    assert Page(w).Head() == I4(w) by { HeadOfPage(w); }
    MappingsStay(y, ops, y.space.kroot, Page(w));
    SharedHalf(y'.space.mem, y'.space.tables, y'.space.kroot, r, Page(w));
  }

  lemma HeadOfPage(w: Word)
    ensures Page(w).Down? && Page(w).Head() == I4(w)
  {
  }

  /** Whether root q maps user pages during the run. */
  ghost predicate Maps(y: System, ops: seq<Op>, q: nat)
    requires AllEnabled(y, ops)
    decreases |ops|
  {
    ops != [] && ((ops[0].MapUser? && y.root == q) || Maps(Do(y, ops[0]), ops[1..], q))
  }

  /** User-half isolation: over any run in which q itself maps nothing, whatever the other address
      spaces map, no translation of q outside slots 510 and 511 changes. */
  lemma {:induction false} UserHalfIsolation(y: System, ops: seq<Op>, q: nat, w: Word)
    requires Good(y) && AllEnabled(y, ops) && IsRoot(y.space.tables, q) && I4(w) < SELF
    requires !Maps(y, ops, q)
    ensures Translate(Run(y, ops).space.mem, q, w) == Translate(y.space.mem, q, w)
    decreases |ops|
  {
    hide Good, Do, Follow, Page;
    if ops != [] {
      var y1 := Do(y, ops[0]);
      StepOutcome(y, ops[0]);
      assert Kept(y, y1, ops[0], q, Page(w));
      TopIsShared(y);
      UserHalfIsolation(y1, ops[1..], q, w);
    }
  }

  lemma TopIsShared(y: System)
    requires Good(y)
    ensures I4(y.top) == KERNEL_HALF
  {
    KernelAddress(y.top);
  }

  // ---- Frames over a run ----

  /** The frames that an operation takes for data pages; a user mapping that meets a mapped page has
      taken one for it, which stays unused. */
  function Pages(y: System, op: Op): seq<nat>
    requires Enabled(y, op)
  {
    match op
    case Allocate(n, flags) => RunFrames(y.space, y.root, y.top, n, flags)
    case MapUser(v, n) => AllocatedFrames(y.space, y.root, v, n, PAGE_USER)
    case _ => []
  }

  function AllPages(y: System, ops: seq<Op>): seq<nat>
    requires AllEnabled(y, ops)
    decreases |ops|
  {
    if ops == [] then [] else Pages(y, ops[0]) + AllPages(Do(y, ops[0]), ops[1..])
  }

  /** The frame of the last round. */
  lemma LastFrame(s: Space, r: nat, v: Word, n: nat, k: nat, flags: Word)
    requires CanMapRun(s, r, v, n, flags) && n == k + 1
    ensures var s1, s2 := MapRun(s, r, v, k, flags), MapRun(s, r, v, n, flags);
            && !OffList(s, HeadFrame(s1)) && DataFrame(s2, HeadFrame(s1))
            && Extends(s1, s2) && NewTablesTaken(s1, s2)
  {
    hide MapNext, Translate, Inv, Page, RunFits, RunChange, NewTablesTaken, DataFrame, RunFrames;
    ShorterRun(s, r, v, n, k, flags);
    RunOutcome(s, r, v, k, flags);
    RunStep(s, r, v, k, flags);
    var s1, w := MapRun(s, r, v, k, flags), PageAt(v, k);
    HalfPresent(s1);
    RoundOutcome(s1, r, w, flags);
    TakenIsMapped(s1, r, w, flags);
    HeadFacts(s1);
  }

  /** The frames of a run of pages were on the list and end up as data frames. */
  lemma {:induction false} RunFramesAreData(s: Space, r: nat, v: Word, n: nat, flags: Word, i: nat)
    requires CanMapRun(s, r, v, n, flags) && i < n
    ensures !OffList(s, RunFrames(s, r, v, n, flags)[i])
    ensures DataFrame(MapRun(s, r, v, n, flags), RunFrames(s, r, v, n, flags)[i])
    decreases n
  {
    hide *;
    var k: nat := n - 1;
    LastRound(s, r, v, n, k, flags);
    LastFrame(s, r, v, n, k, flags);
    if i < k {
      RunFramesAreData(s, r, v, k, flags, i);
      DataFrameKept(MapRun(s, r, v, k, flags), MapRun(s, r, v, n, flags), RunFrames(s, r, v, k, flags)[i]);
    }
  }

  lemma TakenIsMapped(s: Space, r: nat, v: Word, flags: Word)
    requires Inv(s) && IsRoot(s.tables, r) && I4(v) != SELF && Flags(flags) && RoundFits(s, r, v)
    ensures DataFrame(MapNext(s, r, v, flags), HeadFrame(s))
  {
    hide MapDirect, Translate, CanMap, Page;
    HalfPresent(s);
    RoundOutcome(s, r, v, flags);
    TakenIsData(s);
    MapDirectOutcome(Popped(s), r, v, HeadFrame(s), flags);
    DataFrameKept(Popped(s), MapNext(s, r, v, flags), HeadFrame(s));
  }

  /** What CanMapRun asks for holds of heap runs as well. */
  lemma OpRun(y: System, op: Op)
    requires Good(y) && Enabled(y, op)
    ensures op.Allocate? ==> CanMapRun(y.space, y.root, y.top, op.n, op.flags)
  {
    if op.Allocate? {
      HeapPagesFree(y.space, y.root, y.top, op.n);
    }
  }

  /** The same for the frames of a user mapping, the unused one included. */
  lemma AllocatedAreData(s: Space, r: nat, v: Word, n: nat, flags: Word, i: nat)
    requires CanAllocate(s, r, v, n, flags) && i < |AllocatedFrames(s, r, v, n, flags)|
    ensures !OffList(s, AllocatedFrames(s, r, v, n, flags)[i])
    ensures DataFrame(Allocated(s, r, v, n, flags), AllocatedFrames(s, r, v, n, flags)[i])
  {
    hide MapRun, RunFrames, Inv, RunChange, FreePrefix;
    var j := FreePrefix(s.mem, r, v, n);
    var s1 := MapRun(s, r, v, j, flags);
    RunOutcome(s, r, v, j, flags);
    if i < j {
      RunFramesAreData(s, r, v, j, flags, i);
      if j < n {
        PopExtends(s1, r, v);
        DataFrameKept(s1, Popped(s1), RunFrames(s, r, v, j, flags)[i]);
      }
    } else {
      TakenIsData(s1);
      HeadFacts(s1);
      assert s.frames[s1.pos] == HeadFrame(s1);
    }
  }

  lemma AllocatedDiffer(s: Space, r: nat, v: Word, n: nat, flags: Word, i: nat, j: nat)
    requires CanAllocate(s, r, v, n, flags) && i < j < |AllocatedFrames(s, r, v, n, flags)|
    ensures AllocatedFrames(s, r, v, n, flags)[i] != AllocatedFrames(s, r, v, n, flags)[j]
  {
    hide MapRun, RunFrames, Inv, RunChange, FreePrefix;
    var k := FreePrefix(s.mem, r, v, n);
    if j < k {
      RunFramesDiffer(s, r, v, k, flags, i, j);
    } else {
      var s1 := MapRun(s, r, v, k, flags);
      RunOutcome(s, r, v, k, flags);
      RunFramesAreData(s, r, v, k, flags, i);
      HeadFacts(s1);
    }
  }

  /** Page i of an operation was on the list before it and is a data frame after it. */
  lemma PageOfStep(y: System, op: Op, i: nat)
    requires Good(y) && Enabled(y, op) && i < |Pages(y, op)|
    ensures !OffList(y.space, Pages(y, op)[i]) && DataFrame(Do(y, op).space, Pages(y, op)[i])
  {
    hide MapRun, RunFrames, Translate, Inv, Page, CanMapRun;
    hide CanAllocate, Allocated, AllocatedFrames, DataFrame, OffList, Good;
    OpRun(y, op);
    match op
    case Allocate(n, flags) => RunFramesAreData(y.space, y.root, y.top, n, flags, i);
    case MapUser(v, n) => AllocatedAreData(y.space, y.root, v, n, PAGE_USER, i);
  }

  lemma PagesOfStepDiffer(y: System, op: Op, i: nat, j: nat)
    requires Good(y) && Enabled(y, op) && i < j < |Pages(y, op)|
    ensures Pages(y, op)[i] != Pages(y, op)[j]
  {
    hide MapRun, RunFrames, Translate, Inv, Page, CanMapRun, CanAllocate, Allocated, AllocatedFrames, Good;
    OpRun(y, op);
    match op
    case Allocate(n, flags) => RunFramesDiffer(y.space, y.root, y.top, n, flags, i, j);
    case MapUser(v, n) => AllocatedDiffer(y.space, y.root, v, n, PAGE_USER, i, j);
  }

  lemma {:induction false} PageIsData(y: System, ops: seq<Op>, i: nat)
    requires Good(y) && AllEnabled(y, ops) && i < |AllPages(y, ops)|
    ensures !OffList(y.space, AllPages(y, ops)[i]) && DataFrame(Run(y, ops).space, AllPages(y, ops)[i])
    decreases |ops|
  {
    hide Good, Do, DataFrame, OffList, Pages, Enabled;
    var y1, head := Do(y, ops[0]), Pages(y, ops[0]);
    StepOutcome(y, ops[0]);
    if i < |head| {
      PageOfStep(y, ops[0], i);
      RunKeeps(y1, ops[1..]);
    } else {
      PageIsData(y1, ops[1..], i - |head|);
      StillOnList(y, ops[0], AllPages(y1, ops[1..])[i - |head|]);
    }
  }

  lemma {:induction false} PagesDiffer(y: System, ops: seq<Op>, i: nat, j: nat)
    requires Good(y) && AllEnabled(y, ops) && i < j < |AllPages(y, ops)|
    ensures AllPages(y, ops)[i] != AllPages(y, ops)[j]
    decreases |ops|
  {
    hide Good, Do, DataFrame, OffList, Pages, Enabled;
    var y1, head := Do(y, ops[0]), Pages(y, ops[0]);
    StepOutcome(y, ops[0]);
    if j < |head| {
      PagesOfStepDiffer(y, ops[0], i, j);
    } else if i < |head| {
      PageOfStep(y, ops[0], i);
      DataIsOffList(y1, head[i]);
      PageIsData(y1, ops[1..], j - |head|);
    } else {
      PagesDiffer(y1, ops[1..], i - |head|, j - |head|);
    }
  }

  /** No frame is taken for a data page twice during a run; each was on the list when the run began,
      and when it ends it is off the list and is no table. */
  lemma PagesAreUnique(y: System, ops: seq<Op>)
    requires Good(y) && AllEnabled(y, ops)
    ensures forall i :: 0 <= i < |AllPages(y, ops)| ==>
              !OffList(y.space, AllPages(y, ops)[i]) && DataFrame(Run(y, ops).space, AllPages(y, ops)[i])
    ensures forall i, j :: 0 <= i < j < |AllPages(y, ops)| ==> AllPages(y, ops)[i] != AllPages(y, ops)[j]
  {
    hide *;
    forall i | 0 <= i < |AllPages(y, ops)|
      ensures !OffList(y.space, AllPages(y, ops)[i]) && DataFrame(Run(y, ops).space, AllPages(y, ops)[i])
    {
      PageIsData(y, ops, i);
    }
    forall i, j | 0 <= i < j < |AllPages(y, ops)|
      ensures AllPages(y, ops)[i] != AllPages(y, ops)[j]
    {
      PagesDiffer(y, ops, i, j);
    }
  }

  lemma DataIsOffList(y: System, f: nat)
    requires DataFrame(y.space, f)
    ensures OffList(y.space, f)
  {
  }

  /** A frame on the list after an operation was on it before. */
  lemma StillOnList(y: System, op: Op, f: nat)
    requires Good(y) && Enabled(y, op) && !OffList(Do(y, op).space, f)
    ensures !OffList(y.space, f)
  {
    hide MapRun, MapNext, Translate, Inv;
    StepOutcome(y, op);
    ListStays(y, op);
  }

  lemma ListStays(y: System, op: Op)
    requires Good(y) && Enabled(y, op)
    ensures Do(y, op).space.base == y.space.base
  {
    hide MapRun, MapNext, Translate, Inv, Page;
    match op
    case Allocate(n, flags) => BlockOutcome(y.space, y.root, y.top, n, flags);
    case CreateSpace(flags) => CreateMaps(y, flags);
    case MapUser(v, n) => AllocatedOutcome(y.space, y.root, v, n, PAGE_USER);
    case Switch(_) =>
    case WriteData(_, _, _) =>
  }

  lemma TopAligned4096(y: System)
    requires Good(y)
    ensures y.top % 4096 == 0 && y.top >= KERNBASE
  {
  }

  lemma RootOfGood(y: System)
    requires Good(y)
    ensures TreeOk(y.space.mem, y.space.tables, y.space.kroot) && IsRoot(y.space.tables, y.space.kroot)
  {
  }

  lemma TopRises(y: System, y1: System, op: Op)
    requires Step(y, y1, op)
    ensures y.top <= y1.top
  {
  }
}
