/** What user code can reach: over any run, its own data pages; and, where slot 510 of its PML4 has the
    U/S bit, its own page tables through the recursive window. */
module Protection {
  import opened Words
  import opened Mmu
  import opened PageTree
  import opened AddressSpace
  import opened Mapping
  import opened Ranges
  import opened Spaces
  import opened Heap
  import opened Runs
  import Window

  // ---- The recursive window ----

  /** The address at which the window shows word i of the PML4 in use. */
  function OwnRoot(i: nat): Word
    requires i < SLOTS
  {
    Window.PML4_PT_WALK + 8 * i
  }

  /** The MMU lets user code access the words of its own PML4, slot 511 included, exactly if slot 510 has
      the U/S bit. */
  lemma WindowAccess(m: Memory, r: nat, i: nat)
    requires Window.SelfMapped(m, r) && i < SLOTS
    ensures Translate(m, r, OwnRoot(i)) == Some(4096 * r + 8 * i)
    ensures UserAccess(m, r, OwnRoot(i)) <==> UserBit(Read(m, r, SELF))
  {
    hide Page;
    var w := OwnRoot(i);
    Window.Assembled(w, SELF, SELF, SELF, SELF, 8 * i);
    var s1 := Down(Root, SELF);
    var s2 := Down(s1, SELF);
    var s3 := Down(s2, SELF);
    assert Follow(m, r, s1) == Some(r);
    assert Follow(m, r, s2) == Some(r);
    assert Follow(m, r, s3) == Some(r);
    assert UserPath(m, r, s1) <==> UserBit(Read(m, r, SELF));
    assert UserPath(m, r, s2) <==> UserBit(Read(m, r, SELF));
    assert UserPath(m, r, s3) <==> UserBit(Read(m, r, SELF));
  }

  /** No address of the window is open to user code without that bit. */
  lemma {:induction false} WindowNeedsBit(m: Memory, r: nat, u: Trail)
    requires u.Down? && u.Head() == SELF && UserPath(m, r, u)
    ensures UserBit(Read(m, r, SELF))
    decreases u
  {
    if u.up.Down? {
      WindowNeedsBit(m, r, u.up);
    }
  }

  /** create_new_user_pml4 sets that bit and create_new_kernel_pml4 does not: a new address space has its
      window, and shows its PML4 there to user code exactly if it is a user address space. */
  lemma NewWindowAccess(s: Space, p: nat, flags: Word, i: nat)
    requires p < FRAME_LIMIT && Flags(flags) && i < SLOTS
    ensures Window.SelfMapped(AddSpace(s, p, flags).mem, p)
    ensures UserAccess(AddSpace(s, p, flags).mem, p, OwnRoot(i)) <==> flags == PAGE_USER
  {
    hide Translate, UserAccess;
    WindowAccess(AddSpace(s, p, flags).mem, p, i);
  }

  // ---- Everything else ----

  /** Whatever an address space maps below slot 510 is data. */
  ghost predicate UserData(y: System) {
    forall r, u: Trail {:trigger LeadsToData(y.space, r, u)} ::
      IsRoot(y.space.tables, r) && u.Legal() && u.Depth() == 4 && u.Head() < SELF ==> LeadsToData(y.space, r, u)
  }

  ghost predicate LeadsToData(s: Space, r: nat, u: Trail) {
    Follow(s.mem, r, u).Some? ==> DataFrame(s, Follow(s.mem, r, u).value)
  }

  lemma OldRootData(y: System, op: Op, r: nat, u: Trail)
    requires Good(y) && Enabled(y, op) && UserData(y) && IsRoot(y.space.tables, r)
    requires u.Legal() && u.Depth() == 4 && u.Head() < SELF
    ensures LeadsToData(Do(y, op).space, r, u)
  {
    hide Good, Do, Enabled, DataFrame, Follow, Changed;
    StepOutcome(y, op);
    assert Kept(y, Do(y, op), op, r, u);
    assert LeadsToData(y.space, r, u);
    if Changed(y, op, r, u) {
      ChangedData(y, op, r, u);
    }
  }

  /** The pages that a user mapping adds are data. */
  lemma ChangedData(y: System, op: Op, r: nat, u: Trail)
    requires Good(y) && Enabled(y, op) && IsRoot(y.space.tables, r)
    requires u.Legal() && u.Depth() == 4 && u.Head() < SELF && Changed(y, op, r, u)
    ensures LeadsToData(Do(y, op).space, r, u)
  {
    hide MapRun, RunFrames, Inv, Page, Follow, DataFrame, Allocated, FreePrefix, AllocatedFrames, UserOk, HeapOk;
    TopIsShared(y);
    match op
    case MapUser(v, n) =>
      var i :| 0 <= i < FreePages(y, v, n) && u == Page(PageAt(v, i));
      MappedData(y, v, n, i);
    case _ =>
  }

  lemma MappedData(y: System, v: Word, n: nat, i: nat)
    requires Good(y) && Enabled(y, MapUser(v, n)) && i < FreePages(y, v, n)
    ensures LeadsToData(Do(y, MapUser(v, n)).space, y.root, Page(PageAt(v, i)))
  {
    hide MapRun, RunFrames, Inv, Page, Follow, DataFrame, Placed, UserOk, HeapOk;
    var s, j, u := y.space, FreePages(y, v, n), Page(PageAt(v, i));
    var fs, s' := RunFrames(s, y.root, v, j, PAGE_USER), Allocated(s, y.root, v, n, PAGE_USER);
    AllocatedOutcome(s, y.root, v, n, PAGE_USER);
    PlacedAt(v, fs, j, u);
    assert RunChange(s.mem, s'.mem, y.root, v, fs, y.root, u);
    AllocatedAreData(s, y.root, v, n, PAGE_USER, i);
    assert AllocatedFrames(s, y.root, v, n, PAGE_USER)[i] == fs[i];
  }

  /** A new address space maps nothing there. */
  lemma NewRootData(y: System, flags: Word, u: Trail)
    requires Good(y) && Enabled(y, CreateSpace(flags)) && u.Legal() && u.Depth() == 4 && u.Head() < SELF
    ensures LeadsToData(Do(y, CreateSpace(flags)).space, HeadFrame(y.space), u)
  {
    hide MapNext, AddSpace, Inv, Page, Follow;
    var p, s1 := HeadFrame(y.space), MapNext(y.space, y.root, y.top, flags);
    CreateMaps(y, flags);
    AddSpaceOutcome(s1, p, flags);
    assert Follow(AddSpace(s1, p, flags).mem, p, u) == None;
  }

  /** Only CreateSpace adds a PML4. */
  lemma RootsOf(y: System, op: Op, r: nat)
    requires Good(y) && Enabled(y, op) && IsRoot(Do(y, op).space.tables, r)
    ensures IsRoot(y.space.tables, r) || (op.CreateSpace? && r == HeadFrame(y.space))
  {
    hide MapRun, RunFrames, MapNext, Inv, Page, Allocated, RunChange, PathChange;
    match op
    case Allocate(n, flags) => BlockOutcome(y.space, y.root, y.top, n, flags);
    case CreateSpace(flags) => CreateMaps(y, flags);
    case MapUser(v, n) => AllocatedOutcome(y.space, y.root, v, n, PAGE_USER);
    case Switch(_) =>
    case WriteData(_, _, _) =>
  }

  lemma StepKeepsData(y: System, op: Op)
    requires Good(y) && Enabled(y, op) && UserData(y)
    ensures UserData(Do(y, op))
  {
    hide Good, Do, Enabled, LeadsToData;
    forall r, u: Trail | IsRoot(Do(y, op).space.tables, r) && u.Legal() && u.Depth() == 4 && u.Head() < SELF
      ensures LeadsToData(Do(y, op).space, r, u)
    {
      RootsOf(y, op, r);
      if IsRoot(y.space.tables, r) { OldRootData(y, op, r, u); } else { NewRootData(y, op.flags, u); }
    }
  }

  lemma {:induction false} RunKeepsData(y: System, ops: seq<Op>)
    requires Good(y) && AllEnabled(y, ops) && UserData(y)
    ensures UserData(Run(y, ops)) && Good(Run(y, ops))
    decreases |ops|
  {
    hide Good, Do, Enabled, UserData;
    if ops != [] {
      StepOutcome(y, ops[0]);
      StepKeepsData(y, ops[0]);
      RunKeepsData(Do(y, ops[0]), ops[1..]);
    }
  }

  /** Outside slot 510 user code reaches data frames only, in every address space and at the end of any
      run. Through slot 510 it reaches the words of its own PML4 if that slot has the U/S bit, and nothing
      if it has not. Stores of user code are thus data writes of a run, but for those through slot 510. */
  lemma UserReach(y: System, ops: seq<Op>, r: nat, v: Word, i: nat)
    requires Good(y) && AllEnabled(y, ops) && UserData(y) && IsRoot(Run(y, ops).space.tables, r) && i < SLOTS
    ensures var s := Run(y, ops).space;
      && (I4(v) != SELF && UserAccess(s.mem, r, v) ==>
            Follow(s.mem, r, Page(v)).Some? && DataFrame(s, Follow(s.mem, r, Page(v)).value))
      && (UserAccess(s.mem, r, OwnRoot(i)) <==> UserBit(Read(s.mem, r, SELF)))
      && (I4(v) == SELF && UserAccess(s.mem, r, v) ==> UserBit(Read(s.mem, r, SELF)))
  {
    hide Page, Do, Run, AllEnabled, Follow, DataFrame;
    RunKeepsData(y, ops);
    var y' := Run(y, ops);
    var s := y'.space;
    GoodParts(y');
    assert EntryOk(s.mem, s.tables, s.kroot, r, SELF);
    WindowAccess(s.mem, r, i);
    if I4(v) == SELF && UserAccess(s.mem, r, v) {
      WindowNeedsBit(s.mem, r, Page(v));
    }
    if I4(v) == KERNEL_HALF {
      SharedHalfGuarded(s.mem, s.tables, s.kroot, r, Page(v));
    } else if I4(v) != SELF && UserAccess(s.mem, r, v) {
      assert LeadsToData(s, r, Page(v));
      UserPathMapped(s.mem, r, Page(v));
    }
  }

  lemma GoodParts(y: System)
    requires Good(y)
    ensures TreeOk(y.space.mem, y.space.tables, y.space.kroot)
            && !UserBit(Read(y.space.mem, y.space.kroot, KERNEL_HALF))
  {
  }

  lemma UserPathMapped(m: Memory, r: nat, u: Trail)
    requires u.Down? && UserPath(m, r, u)
    ensures Follow(m, r, u).Some?
  {
  }
}
