/** What becomes of every frame that comes off the list, from booting to the end of any run, and of
    every block of the heap. */
module Accounts {
  import opened Words
  import opened Mmu
  import opened PageTree
  import opened AddressSpace
  import opened Mapping
  import opened Ranges
  import opened Spaces
  import opened Heap
  import opened Boot
  import opened Runs

  // ---- Frames taken for tables ----

  /** Every frame taken between s and s' has become a table. */
  ghost predicate AllTables(s: Space, s': Space) {
    && s'.frames == s.frames && s.pos <= s'.pos <= |s.frames|
    && forall j :: s.pos <= j < s'.pos ==> s.frames[j] in s'.tables
  }

  lemma AllTablesThen(s: Space, s1: Space, s2: Space)
    requires AllTables(s, s1) && AllTables(s1, s2) && Extends(s1, s2)
    ensures AllTables(s, s2)
  {
  }

  lemma LinkTakes(s: Space, r: nat, flags: Word, v: Word, up: Trail, i: nat)
    requires Gap(s, r, v, up, i) && s.pos < |s.frames| && Flags(flags)
    ensures AllTables(s, Link(s, Follow(s.mem, r, up).value, i, flags))
  {
    hide Gap, Link, AllTables, HeadFrame, Follow;
    HeadIs(s, r, v, up, i);
    GapEntry(s, r, v, up, i);
    LinkTables(s, Follow(s.mem, r, up).value, i, flags);
  }

  lemma HeadIs(s: Space, r: nat, v: Word, up: Trail, i: nat)
    requires Gap(s, r, v, up, i) && s.pos < |s.frames|
    ensures HeadFrame(s) == s.frames[s.pos] && Follow(s.mem, r, up).Some?
  {
    HeadFacts(s);
  }

  lemma LinkTables(s: Space, f: nat, i: nat, flags: Word)
    requires f in s.tables && s.tables[f].level > 1 && s.pos < |s.frames| && HeadFrame(s) == s.frames[s.pos]
             && Flags(flags)
    ensures AllTables(s, Link(s, f, i, flags))
  {
    hide WritePhys, Write, ChildNode, Entry, Popped;
    PoppedFields(s);
    LinkedIsTable(s, f, i, flags);
  }

  lemma LinkedIsTable(s: Space, f: nat, i: nat, flags: Word)
    requires f in s.tables && s.tables[f].level > 1 && Flags(flags)
    ensures HeadFrame(s) in Link(s, f, i, flags).tables
    ensures Link(s, f, i, flags).pos == s.pos + 1 && Link(s, f, i, flags).frames == s.frames
  {
    hide WritePhys, Write, ChildNode, HeadFrame;
  }

  lemma LeafTakes(s: Space, r: nat, v: Word, p: nat, flags: Word)
    requires CanMap(s, r, v, p, flags) && Follow(s.mem, r, Dir1(v)).Some?
    ensures var s' := MapPt(s, Follow(s.mem, r, Dir1(v)).value, v, p, flags); AllTables(s, s') && Extends(s, s')
  {
    LeafKeeps(s, r, v, p, flags);
  }

  lemma MapPdTakes(s: Space, r: nat, v: Word, p: nat, flags: Word)
    requires CanMap(s, r, v, p, flags) && Follow(s.mem, r, Dir2(v)).Some?
    ensures var s' := MapPd(s, Follow(s.mem, r, Dir2(v)).value, v, p, flags); AllTables(s, s') && Extends(s, s')
  {
    hide BootInv, HalfOk, UserKept, MapPt;
    if Follow(s.mem, r, Dir1(v)).Some? {
      LeafTakes(s, r, v, p, flags);
    } else {
      var s1 := Link(s, Follow(s.mem, r, Dir2(v)).value, I2(v), flags);
      assert Gap(s, r, v, Dir2(v), I2(v));
      LinkKeeps(s, r, flags, v, Dir2(v), I2(v));
      LinkTakes(s, r, flags, v, Dir2(v), I2(v));
      LeafTakes(s1, r, v, p, flags);
      AllTablesThen(s, s1, MapPt(s1, HeadFrame(s), v, p, flags));
    }
  }

  lemma MapPdptTakes(s: Space, r: nat, v: Word, p: nat, flags: Word)
    requires CanMap(s, r, v, p, flags) && Follow(s.mem, r, Dir3(v)).Some?
    ensures var s' := MapPdpt(s, Follow(s.mem, r, Dir3(v)).value, v, p, flags); AllTables(s, s') && Extends(s, s')
  {
    hide BootInv, HalfOk, UserKept, MapPd;
    if Follow(s.mem, r, Dir2(v)).Some? {
      MapPdTakes(s, r, v, p, flags);
    } else {
      var s1 := Link(s, Follow(s.mem, r, Dir3(v)).value, I3(v), flags);
      assert Gap(s, r, v, Dir3(v), I3(v));
      LinkKeeps(s, r, flags, v, Dir3(v), I3(v));
      LinkTakes(s, r, flags, v, Dir3(v), I3(v));
      assert Follow(s1.mem, r, Dir1(v)) == None;
      MapPdTakes(s1, r, v, p, flags);
      AllTablesThen(s, s1, MapPd(s1, HeadFrame(s), v, p, flags));
    }
  }

  /** All frames that mapping a page takes become tables. */
  lemma MapDirectTakes(s: Space, r: nat, v: Word, p: nat, flags: Word)
    requires CanMap(s, r, v, p, flags)
    ensures AllTables(s, MapDirect(s, r, v, p, flags)) && Extends(s, MapDirect(s, r, v, p, flags))
  {
    hide BootInv, HalfOk, UserKept, MapPdpt;
    if Follow(s.mem, r, Dir3(v)).Some? {
      MapPdptTakes(s, r, v, p, flags);
    } else {
      var s1 := Link(s, r, I4(v), flags);
      assert Follow(s.mem, r, Root) == Some(r);
      assert Gap(s, r, v, Root, I4(v));
      LinkKeeps(s, r, flags, v, Root, I4(v));
      LinkTakes(s, r, flags, v, Root, I4(v));
      assert Follow(s1.mem, r, Dir3(v)) == Some(HeadFrame(s));
      assert Follow(s1.mem, r, Dir2(v)) == None;
      assert Follow(s1.mem, r, Dir1(v)) == None;
      MapPdptTakes(s1, r, v, p, flags);
      AllTablesThen(s, s1, MapPdpt(s1, HeadFrame(s), v, p, flags));
    }
  }

  // ---- Frames taken by an operation ----

  /** Every frame taken between s and s' is a table in s' or one of the pages fs. */
  ghost predicate AllUsed(s: Space, s': Space, fs: seq<nat>) {
    s'.frames == s.frames && s.pos <= s'.pos <= |s.frames|
    && forall j :: s.pos <= j < s'.pos ==> s.frames[j] in s'.tables || s.frames[j] in fs
  }

  lemma AllUsedThen(s: Space, s1: Space, s2: Space, fs: seq<nat>, gs: seq<nat>)
    requires AllUsed(s, s1, fs) && AllUsed(s1, s2, gs) && forall f :: f in s1.tables ==> f in s2.tables
    ensures AllUsed(s, s2, fs + gs)
  {
  }

  lemma RoundUses(s: Space, r: nat, v: Word, flags: Word)
    requires BootInv(s) && HalfOk(s) && IsRoot(s.tables, r) && I4(v) != SELF && Flags(flags) && RoundFits(s, r, v)
    ensures AllUsed(s, MapNext(s, r, v, flags), [HeadFrame(s)]) && Extends(s, MapNext(s, r, v, flags))
  {
    hide MapDirect, BootInv, HalfOk, CanMap, PathChange, UserKept, NewTablesTaken, Extends, Follow, Page, Popped;
    RoundOutcome(s, r, v, flags);
    HeadFacts(s);
    MapDirectTakes(Popped(s), r, v, HeadFrame(s), flags);
    PoppedFields(s);
    FirstThenTables(s, MapNext(s, r, v, flags));
  }

  lemma FirstThenTables(s: Space, s': Space)
    requires s.pos < |s.frames| && HeadFrame(s) == s.frames[s.pos] && AllTables(Popped(s), s')
    ensures AllUsed(s, s', [HeadFrame(s)])
  {
    hide HeadFrame, WritePhys;
  }

  lemma {:induction false} RunUses(s: Space, r: nat, v: Word, n: nat, flags: Word)
    requires CanMapRun(s, r, v, n, flags)
    ensures AllUsed(s, MapRun(s, r, v, n, flags), RunFrames(s, r, v, n, flags))
    decreases n
  {
    hide MapNext, Inv, RunMapped;
    if n == 0 {
      InvList(s);
    } else {
      var k: nat := n - 1;
      ShorterRun(s, r, v, n, k, flags);
      RunStep(s, r, v, k, flags);
      RunUses(s, r, v, k, flags);
      RunOutcome(s, r, v, k, flags);
      var s1, w := MapRun(s, r, v, k, flags), PageAt(v, k);
      HalfPresent(s1);
      StillRoot(s, s1, r, v, RunFrames(s, r, v, k, flags));
      RoundUses(s1, r, w, flags);
      AllUsedThen(s, s1, MapNext(s1, r, w, flags), RunFrames(s, r, v, k, flags), [HeadFrame(s1)]);
    }
  }

  lemma InvList(s: Space)
    requires Inv(s)
    ensures s.pos <= |s.frames|
    ensures forall i, j :: 0 <= i < j < |s.frames| ==> s.frames[i] != s.frames[j]
    ensures forall j :: s.pos <= j < |s.frames| ==> s.frames[j] !in s.tables
  {
    forall j | s.pos <= j < |s.frames|
      ensures s.frames[j] !in s.tables
    {
      assert FreeFrame(s, j);
    }
  }

  lemma StillRoot(s: Space, s': Space, r: nat, v: Word, fs: seq<nat>)
    requires RunMapped(s, s', r, v, fs) && IsRoot(s.tables, r)
    ensures IsRoot(s'.tables, r)
  {
  }

  lemma AllocatedUses(s: Space, r: nat, v: Word, n: nat, flags: Word)
    requires CanAllocate(s, r, v, n, flags)
    ensures AllUsed(s, Allocated(s, r, v, n, flags), AllocatedFrames(s, r, v, n, flags))
  {
    hide MapRun, RunFrames, Inv, RunChange, FreePrefix;
    var j := FreePrefix(s.mem, r, v, n);
    RunUses(s, r, v, j, flags);
    if j < n {
      var s1 := MapRun(s, r, v, j, flags);
      RunOutcome(s, r, v, j, flags);
      HeadFacts(s1);
    }
  }

  /** The frames that an operation takes become tables or are its pages. */
  lemma OpUses(y: System, op: Op)
    requires Good(y) && Enabled(y, op)
    ensures AllUsed(y.space, Do(y, op).space, Pages(y, op))
  {
    hide MapRun, RunFrames, MapNext, Inv, Allocated, AllocatedFrames, CanAllocate, CanMapRun, HeapOk;
    InvOf(y);
    match op
    case Allocate(n, flags) => OpRun(y, op); RunUses(y.space, y.root, y.top, n, flags);
    case CreateSpace(flags) =>
      CreateMaps(y, flags);
      HalfPresent(y.space);
      TopIsShared(y);
      RoundUses(y.space, y.root, y.top, flags);
    case MapUser(v, n) => AllocatedUses(y.space, y.root, v, n, PAGE_USER);
    case Switch(_) => InvList(y.space);
    case WriteData(_, _, _) => InvList(y.space);
  }

  lemma InvOf(y: System)
    requires Good(y)
    ensures Inv(y.space) && IsRoot(y.space.tables, y.root)
  {
  }

  /** New tables are frames that the operation took. */
  lemma OpTables(y: System, op: Op)
    requires Good(y) && Enabled(y, op)
    ensures NewTablesTaken(y.space, Do(y, op).space)
    ensures forall f :: f in y.space.tables ==> f in Do(y, op).space.tables
  {
    hide MapRun, RunFrames, MapNext, Inv, Allocated, AllocatedFrames;
    hide CanAllocate, CanMapRun, HeapOk, RunChange, PathChange;
    InvOf(y);
    match op
    case Allocate(n, flags) => BlockOutcome(y.space, y.root, y.top, n, flags);
    case CreateSpace(flags) =>
      CreateMaps(y, flags);
      HalfPresent(y.space);
      TopIsShared(y);
      RoundOutcome(y.space, y.root, y.top, flags);
      HeadFacts(y.space);
      assert y.space.frames[y.space.pos] == HeadFrame(y.space);
    case MapUser(v, n) => AllocatedOutcome(y.space, y.root, v, n, PAGE_USER);
    case Switch(_) =>
    case WriteData(_, _, _) =>
  }

  // ---- Frames over a run ----

  lemma {:induction false} RunUsesAll(y: System, ops: seq<Op>)
    requires Good(y) && AllEnabled(y, ops)
    ensures var s, s' := y.space, Run(y, ops).space;
      && AllUsed(s, s', AllPages(y, ops)) && NewTablesTaken(s, s')
      && forall f :: f in s.tables ==> f in s'.tables
    decreases |ops|
  {
    hide Good, Do, Pages, Enabled, Step;
    if ops == [] {
      InvOf(y);
      InvList(y.space);
    } else {
      var y1 := Do(y, ops[0]);
      StepOutcome(y, ops[0]);
      OpUses(y, ops[0]);
      OpTables(y, ops[0]);
      RunUsesAll(y1, ops[1..]);
      AllUsedThen(y.space, y1.space, Run(y1, ops[1..]).space, Pages(y, ops[0]), AllPages(y1, ops[1..]));
      TakenThen(y.space, y1.space, Run(y1, ops[1..]).space);
    }
  }

  /** A frame that was on the list and is in use for data has been taken in between. */
  lemma DataWasTaken(s: Space, s': Space, f: nat)
    requires s'.frames == s.frames && s'.base == s.base && !OffList(s, f) && DataFrame(s', f)
    ensures Taken(s, s', f)
  {
    var j :| s.pos <= j < |s.frames| && s.frames[j] == f;
  }

  lemma {:induction false} BaseStays(y: System, ops: seq<Op>)
    requires Good(y) && AllEnabled(y, ops)
    ensures Run(y, ops).space.base == y.space.base && Run(y, ops).space.frames == y.space.frames
    decreases |ops|
  {
    hide Good, Do, Enabled;
    if ops != [] {
      StepOutcome(y, ops[0]);
      ListStays(y, ops[0]);
      BaseStays(Do(y, ops[0]), ops[1..]);
    }
  }

  /** Frame uniqueness over a run. The frames handed out are those between two positions of the list,
      all different. Each has become a table, which it was not before, or has been taken for a data
      page, and not both; no data page has been given a frame twice; and every new table and every
      data page is one of these frames. */
  lemma FramesAreUnique(y: System, ops: seq<Op>)
    requires Good(y) && AllEnabled(y, ops)
    ensures var s, s', pages := y.space, Run(y, ops).space, AllPages(y, ops);
      && s'.frames == s.frames && s.pos <= s'.pos <= |s.frames|
      && (forall i, j :: 0 <= i < j < |s.frames| ==> s.frames[i] != s.frames[j])
      && (forall j :: s.pos <= j < s'.pos ==>
            s.frames[j] !in s.tables && (s.frames[j] in s'.tables <==> s.frames[j] !in pages))
      && (forall f :: f in s'.tables ==> f in s.tables || Taken(s, s', f))
      && (forall i :: 0 <= i < |pages| ==> Taken(s, s', pages[i]))
      && (forall i, j :: 0 <= i < j < |pages| ==> pages[i] != pages[j])
  {
    hide Good, Do, Pages, AllPages, Run, AllEnabled, OffList;
    var s, s', pages := y.space, Run(y, ops).space, AllPages(y, ops);
    RunUsesAll(y, ops);
    BaseStays(y, ops);
    PagesAreUnique(y, ops);
    InvOf(y);
    InvList(s);
    forall i | 0 <= i < |pages|
      ensures Taken(s, s', pages[i]) && pages[i] !in s'.tables
    {
      DataWasTaken(s, s', pages[i]);
    }
  }

  // ---- Frames from booting on ----

  /** Whether f is one of the frames between position l and the head of the list. */
  ghost predicate HandedOut(s: Space, l: nat, f: nat) {
    exists j :: l <= j < s.pos && j < |s.frames| && s.frames[j] == f
  }

  /** All frames from position l to the head of the list are tables, and all tables are such frames. */
  ghost predicate OnlyTables(s: Space, l: nat) {
    && l <= s.pos <= |s.frames|
    && (forall j :: l <= j < s.pos ==> s.frames[j] in s.tables)
    && forall f :: f in s.tables ==> HandedOut(s, l, f)
  }

  /** What has been handed out stays so, and what is taken comes to it. */
  lemma HandedOutThen(s: Space, s': Space, l: nat, f: nat)
    requires s'.frames == s.frames && l <= s.pos <= s'.pos && (HandedOut(s, l, f) || Taken(s, s', f))
    ensures HandedOut(s', l, f)
  {
    if HandedOut(s, l, f) {
      var j :| l <= j < s.pos && j < |s.frames| && s.frames[j] == f;
      assert s'.frames[j] == f;
    } else {
      var j :| s.pos <= j < s'.pos && j < |s.frames| && s.frames[j] == f;
      assert s'.frames[j] == f;
    }
  }

  lemma {:induction false} BootTakes(s: Space, r: nat, v: Word, p: nat, n: nat, total: nat)
    requires CanBoot(s, r, v, p, total) && n <= total
    ensures AllTables(s, BootRun(s, r, v, p, n))
    decreases n
  {
    hide MapDirect, BootInv, HalfOk, CanMap, RunMapped, BootOutcome;
    if n == 0 {
      BootZero(s, r, v, p);
      BootList(s);
      CanBootInv(s, r, v, p, total);
    } else {
      var k: nat := n - 1;
      BootTakes(s, r, v, p, k, total);
      BootRunOutcome(s, r, v, p, k, total);
      BootStep(s, r, v, p, k);
      var s1 := BootRun(s, r, v, p, k);
      MapDirectTakes(s1, r, PageAt(v, k), p + k, PAGE_KERNEL);
      AllTablesThen(s, s1, MapDirect(s1, r, PageAt(v, k), p + k, PAGE_KERNEL));
    }
  }

  lemma CanBootInv(s: Space, r: nat, v: Word, p: nat, n: nat)
    requires CanBoot(s, r, v, p, n)
    ensures BootInv(s)
  {
  }

  lemma BootList(s: Space)
    ensures BootInv(s) ==> s.pos <= |s.frames|
  {
  }

  /** Mapping a run while booting adds the frames taken, all of them tables, to the account. */
  lemma BootAccount(s: Space, s': Space, l: nat)
    requires OnlyTables(s, l) && AllTables(s, s') && NewTablesTaken(s, s') && Extends(s, s')
    ensures OnlyTables(s', l)
  {
    hide HandedOut, Taken;
    forall f | f in s'.tables
      ensures HandedOut(s', l, f)
    {
      HandedOutThen(s, s', l, f);
    }
  }

  /** Frames that are tables already are not taken for pages. */
  lemma TablesAreNoPages(s: Space, s': Space, l: nat, pages: seq<nat>, j: nat)
    requires OnlyTables(s, l) && l <= j < s.pos && s.pos <= s'.pos <= |s.frames|
    requires forall i, k :: 0 <= i < k < |s.frames| ==> s.frames[i] != s.frames[k]
    requires forall i :: 0 <= i < |pages| ==> Taken(s, s', pages[i])
    ensures s.frames[j] in s.tables && s.frames[j] !in pages
  {
    hide HandedOut;
    forall i | 0 <= i < |pages|
      ensures pages[i] != s.frames[j]
    {
      assert Taken(s, s', pages[i]);
    }
  }

  /** Frame uniqueness from booting on: if booting has made tables of all the frames it took, then in
      every later state each frame handed out since, by either allocator, is a table or has been taken
      for a data page, and not both, and every table and data page is one of these frames. */
  lemma FramesSinceBoot(y: System, ops: seq<Op>, l: nat)
    requires Good(y) && AllEnabled(y, ops) && OnlyTables(y.space, l)
    ensures var s', pages := Run(y, ops).space, AllPages(y, ops);
      && s'.frames == y.space.frames && l <= s'.pos <= |s'.frames|
      && (forall i, j :: 0 <= i < j < |s'.frames| ==> s'.frames[i] != s'.frames[j])
      && (forall j :: l <= j < s'.pos ==> (s'.frames[j] in s'.tables <==> s'.frames[j] !in pages))
      && (forall f :: f in s'.tables ==> HandedOut(s', l, f))
      && (forall i :: 0 <= i < |pages| ==> HandedOut(s', l, pages[i]))
      && (forall i, j :: 0 <= i < j < |pages| ==> pages[i] != pages[j])
  {
    hide Good, Do, Pages, AllPages, Run, AllEnabled, HandedOut, Taken;
    var s, s', pages := y.space, Run(y, ops).space, AllPages(y, ops);
    FramesAreUnique(y, ops);
    RunUsesAll(y, ops);
    forall j | l <= j < s.pos
      ensures s'.frames[j] in s'.tables && s'.frames[j] !in pages
    {
      TablesAreNoPages(s, s', l, pages, j);
    }
    forall f | f in s'.tables
      ensures HandedOut(s', l, f)
    {
      HandedOutThen(s, s', l, f);
    }
    forall i | 0 <= i < |pages|
      ensures HandedOut(s', l, pages[i])
    {
      HandedOutThen(s, s', l, pages[i]);
    }
  }
}
