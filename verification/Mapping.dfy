/** Mapping one page: the walk by index that writes it, and what it does to every path of every
    address space. */
module Mapping {
  import opened Words
  import opened Mmu
  import opened PageTree
  import opened AddressSpace

  const PAGE_KERNEL: Word := 3
  const PAGE_USER: Word := 7

  predicate Flags(flags: Word) {
    flags == PAGE_KERNEL || flags == PAGE_USER
  }

  /** How many of the three tables below the PML4 are missing on the path of v. */
  function Missing(m: Memory, r: nat, v: Word): nat {
    if Follow(m, r, Dir3(v)) == None then 3
    else if Follow(m, r, Dir2(v)) == None then 2
    else if Follow(m, r, Dir1(v)) == None then 1
    else 0
  }

  // ---- The walk by index ----

  /** The frame at the head of the list, zero when the list is empty. */
  function HeadFrame(s: Space): (c: nat)
    ensures c < FRAME_LIMIT
  {
    if s.pos < |s.frames| && s.frames[s.pos] < FRAME_LIMIT then s.frames[s.pos] else 0
  }

  /** Entry i of table f set to e. */
  function Put(s: Space, f: nat, i: nat, e: Word): Space {
    s.(mem := Write(s.mem, f, i, e),
       tables := if f in s.tables then TablesAfter(s.tables, s.kroot, f, i, e) else s.tables)
  }

  /** The frame at the head of the list taken and linked at entry i of table f. */
  function Link(s: Space, f: nat, i: nat, flags: Word): Space
    requires Flags(flags)
  {
    Put(Popped(s), f, i, Entry(HeadFrame(s), flags))
  }

  function MapPt(s: Space, pt: nat, v: Word, p: nat, flags: Word): Space
    requires Flags(flags) && p < FRAME_LIMIT
  {
    Put(s, pt, I1(v), Entry(p, flags))
  }

  function MapPd(s: Space, pd: nat, v: Word, p: nat, flags: Word): Space
    requires Flags(flags) && p < FRAME_LIMIT
  {
    if Present(Read(s.mem, pd, I2(v))) then MapPt(s, Target(Read(s.mem, pd, I2(v))), v, p, flags)
    else MapPt(Link(s, pd, I2(v), flags), HeadFrame(s), v, p, flags)
  }

  function MapPdpt(s: Space, pdpt: nat, v: Word, p: nat, flags: Word): Space
    requires Flags(flags) && p < FRAME_LIMIT
  {
    if Present(Read(s.mem, pdpt, I3(v))) then MapPd(s, Target(Read(s.mem, pdpt, I3(v))), v, p, flags)
    else MapPd(Link(s, pdpt, I3(v), flags), HeadFrame(s), v, p, flags)
  }

  /** The space after mapping v to frame p by walking the tables of root r by index, taking a
      frame from the list for each missing table. */
  function MapDirect(s: Space, r: nat, v: Word, p: nat, flags: Word): Space
    requires Flags(flags) && p < FRAME_LIMIT
  {
    if Present(Read(s.mem, r, I4(v))) then MapPdpt(s, Target(Read(s.mem, r, I4(v))), v, p, flags)
    else MapPdpt(Link(s, r, I4(v), flags), HeadFrame(s), v, p, flags)
  }

  // ---- What a change does to all address spaces ----

  /** The frames that have come off the list between s and s'. */
  ghost predicate Taken(s: Space, s': Space, f: nat) {
    exists j :: s.pos <= j < s'.pos && j < |s.frames| && s.frames[j] == f
  }

  /** New tables are frames that have come off the list. */
  ghost predicate NewTablesTaken(s: Space, s': Space) {
    forall f :: f in s'.tables ==> f in s.tables || Taken(s, s', f)
  }

  lemma TakenThen(s: Space, s1: Space, s2: Space)
    requires NewTablesTaken(s, s1) && NewTablesTaken(s1, s2)
    requires s1.frames == s.frames && s.pos <= s1.pos <= s2.pos
    ensures NewTablesTaken(s, s2)
  {
    forall f | f in s2.tables
      ensures f in s.tables || Taken(s, s2, f)
    {
      if f !in s1.tables {
        var j :| s1.pos <= j < s2.pos && j < |s1.frames| && s1.frames[j] == f;
        assert s.frames[j] == f;
      } else if f !in s.tables {
        var j :| s.pos <= j < s1.pos && j < |s.frames| && s.frames[j] == f;
        assert s.frames[j] == f;
      }
    }
  }

  /** What mapping never changes: the layout, the tables that exist, the set of PML4s, and the
      entry in slot 511 once it is present. */
  ghost predicate Extends(s: Space, s': Space) {
    && s'.kroot == s.kroot && s'.lo == s.lo && s'.hi == s.hi && s'.base == s.base && s'.frames == s.frames
    && s.pos <= s'.pos
    && (forall f :: f in s.tables ==> f in s'.tables && s'.tables[f] == s.tables[f])
    && (forall f :: IsRoot(s'.tables, f) ==> IsRoot(s.tables, f))
    && (Present(Read(s.mem, s.kroot, KERNEL_HALF)) ==>
          Read(s'.mem, s.kroot, KERNEL_HALF) == Read(s.mem, s.kroot, KERNEL_HALF))
    && (forall f, i :: f !in s'.tables && !ListFrame(s, f) ==> Read(s'.mem, f, i) == Read(s.mem, f, i))
  }

  /** The path of a page, as root q sees it after root r has linked tables on the path of v. */
  predicate PathKept(m: Memory, m': Memory, r: nat, v: Word, q: nat, u: Trail) {
    u.Direct() || (q != r && I4(v) != KERNEL_HALF) ==> Follow(m', q, u) == Follow(m, q, u)
  }

  /** Linking tables on the path of v: no page of any address space moves. */
  ghost predicate Linked(s: Space, s': Space, r: nat, v: Word) {
    && Extends(s, s')
    && (forall q, u: Trail {:trigger PathKept(s.mem, s'.mem, r, v, q, u)} ::
          IsRoot(s.tables, q) && u.Legal() && u.Depth() == 4 ==> PathKept(s.mem, s'.mem, r, v, q, u))
  }

  /** Mapping v to frame c: that page moves for those who see it, no other page of any address
      space does. */
  ghost predicate PageMapped(s: Space, s': Space, r: nat, v: Word, c: nat) {
    && Extends(s, s')
    && (forall q, u: Trail {:trigger PathChange(s.mem, s'.mem, r, Page(v), c, q, u)} ::
          IsRoot(s.tables, q) && u.Legal() && u.Depth() == 4 ==> PathChange(s.mem, s'.mem, r, Page(v), c, q, u))
  }

  /** Kernel mappings stay out of the private half of user address spaces. */
  predicate MayMap(s: Space, r: nat, v: Word, flags: Word) {
    r in s.tables && (s.tables[r].user && I4(v) != KERNEL_HALF ==> flags == PAGE_USER)
  }

  ghost predicate UserKept(s: Space, s': Space, r: nat, v: Word, flags: Word) {
    UserOk(s.mem, s.tables) && MayMap(s, r, v, flags) ==> UserOk(s'.mem, s'.tables)
  }

  lemma LinkedThen(s: Space, s1: Space, s2: Space, r: nat, v: Word, flags: Word)
    requires Linked(s, s1, r, v) && UserKept(s, s1, r, v, flags)
    requires UserKept(s1, s2, r, v, flags)
    ensures Linked(s1, s2, r, v) ==> Linked(s, s2, r, v)
    ensures forall c :: PageMapped(s1, s2, r, v, c) ==> PageMapped(s, s2, r, v, c)
    ensures UserKept(s, s2, r, v, flags)
  {
    hide Page;
    forall q, u: Trail | IsRoot(s.tables, q) && u.Legal() && u.Depth() == 4
      ensures Linked(s1, s2, r, v) ==> PathKept(s.mem, s2.mem, r, v, q, u)
      ensures forall c :: PageMapped(s1, s2, r, v, c) ==> PathChange(s.mem, s2.mem, r, Page(v), c, q, u)
    {
      assert PathKept(s.mem, s1.mem, r, v, q, u);
      assert IsRoot(s1.tables, q);
      if Linked(s1, s2, r, v) {
        assert PathKept(s1.mem, s2.mem, r, v, q, u);
      }
      forall c | PageMapped(s1, s2, r, v, c)
        ensures PathChange(s.mem, s2.mem, r, Page(v), c, q, u)
      {
        assert PathChange(s1.mem, s2.mem, r, Page(v), c, q, u);
      }
    }
  }

  // ---- Taking a frame ----

  /** Setting the status word of a list node changes no path. */
  lemma PopLinks(s: Space, r: nat, v: Word, flags: Word)
    requires BootInv(s) && s.pos < |s.frames|
    ensures Linked(s, Popped(s), r, v) && UserKept(s, Popped(s), r, v, flags)
    ensures forall q, u: Trail :: IsRoot(s.tables, q) && u.Legal() && u.Depth() <= 4 ==>
              Follow(Popped(s).mem, q, u) == Follow(s.mem, q, u)
  {
    var s' := Popped(s);
    PopKeepsBoot(s);
    SameTree(s.mem, s'.mem, s.tables, s.kroot);
    forall f, i | !ListFrame(s, f)
      ensures Read(s'.mem, f, i) == Read(s.mem, f, i)
    {
      PopFrame(s, f, i);
    }
    forall q, u: Trail | IsRoot(s.tables, q) && u.Legal() && u.Depth() <= 4
      ensures Follow(s'.mem, q, u) == Follow(s.mem, q, u)
    {
      SameFollow(s.mem, s'.mem, s.tables, s.kroot, q, u);
    }
  }

  lemma HeadFacts(s: Space)
    requires BootInv(s) && s.pos < |s.frames|
    ensures var c := HeadFrame(s);
            c == s.frames[s.pos] && 0 < c && c !in s.tables && !ListFrame(s, c) && OffList(Popped(s), c)
  {
    assert FreeFrame(s, s.pos);
  }

  // ---- Linking a table ----

  /** Whether entry i of the table at path `up` is one that a walk of v reads. */
  predicate OnPath(v: Word, up: Trail, i: nat) {
    Down(up, i) == Dir3(v) || Down(up, i) == Dir2(v) || Down(up, i) == Dir1(v) || Down(up, i) == Page(v)
  }

  lemma OnPathFacts(v: Word, up: Trail, i: nat)
    requires OnPath(v, up, i)
    ensures i < SLOTS && up.Legal() && up.Depth() <= 3 && Down(up, i).Legal() && Down(up, i).Head() == I4(v)
    ensures I4(v) != SELF ==> Down(up, i).Direct() && up.Direct()
    ensures up.Root? ==> i == I4(v)
  {
  }

  /** The place where the first missing table on the path of v has to be linked. */
  ghost predicate Gap(s: Space, r: nat, v: Word, up: Trail, i: nat) {
    && BootInv(s) && HalfOk(s) && IsRoot(s.tables, r)
    && up.Depth() <= 2 && OnPath(v, up, i) && I4(v) != SELF
    && Follow(s.mem, r, up).Some? && Follow(s.mem, r, Down(up, i)) == None
  }

  lemma GapEntry(s: Space, r: nat, v: Word, up: Trail, i: nat)
    requires Gap(s, r, v, up, i)
    ensures var f := Follow(s.mem, r, up).value;
            f in s.tables && s.tables[f].level > 1 && !Present(Read(s.mem, f, i)) &&
            (s.tables[f].level == 4 ==> i != SELF) &&
            (s.tables[f].level == 4 && i == KERNEL_HALF ==>
               && f == s.kroot && !Present(Read(s.mem, s.kroot, KERNEL_HALF))
               && forall q :: IsRoot(s.tables, q) ==> q == s.kroot)
  {
    OnPathFacts(v, up, i);
    FollowArrives(s.mem, s.tables, s.kroot, r, up);
    assert EntryOk(s.mem, s.tables, s.kroot, r, KERNEL_HALF);
  }

  lemma PoppedGap(s: Space, r: nat, flags: Word, v: Word, up: Trail, i: nat)
    requires Gap(s, r, v, up, i) && s.pos < |s.frames| && Flags(flags)
    ensures Gap(Popped(s), r, v, up, i) && Follow(Popped(s).mem, r, up) == Follow(s.mem, r, up)
  {
    var s1 := Popped(s);
    OnPathFacts(v, up, i);
    PopLinks(s, r, v, flags);
    PopKeepsBoot(s);
    assert Follow(s1.mem, r, Down(up, i)) == Follow(s.mem, r, Down(up, i));
    GapEntry(s, r, v, up, i);
    assert SameTables(s.mem, s1.mem, s.tables);
    assert HalfOk(s1);
  }

  /** The frame at the head of the list may be linked in the gap. */
  lemma MayLink(s: Space, r: nat, flags: Word, v: Word, up: Trail, i: nat)
    requires Gap(s, r, v, up, i) && s.pos < |s.frames| && Flags(flags) && Gap(Popped(s), r, v, up, i)
    ensures MaySet(Popped(s), r, up, i, Entry(HeadFrame(s), flags))
  {
    OnPathFacts(v, up, i);
    HeadFacts(s);
    PopKeepsBoot(s);
    GapEntry(Popped(s), r, v, up, i);
  }

  /** Setting an entry of a table above the page tables moves no page. */
  lemma SetLinks(s: Space, r: nat, flags: Word, v: Word, up: Trail, i: nat, e: Word)
    requires Gap(s, r, v, up, i) && MaySet(s, r, up, i, e) && Flags(flags) && (flags == PAGE_USER ==> UserBit(e))
    requires Follow(s.mem, r, up).value in s.tables
    ensures Linked(s, EntrySet(s, r, up, i, e), r, v)
    ensures UserKept(s, EntrySet(s, r, up, i, e), r, v, flags)
    ensures HalfOk(EntrySet(s, r, up, i, e))
  {
    OnPathFacts(v, up, i);
    GapEntry(s, r, v, up, i);
    SetChanges(s, r, up, i, e);
    FollowArrives(s.mem, s.tables, s.kroot, r, up);
    var f, s' := Follow(s.mem, r, up).value, EntrySet(s, r, up, i, e);
    assert forall q :: IsRoot(s'.tables, q) ==> IsRoot(s.tables, q);
    forall q, u: Trail | IsRoot(s.tables, q) && u.Legal() && u.Depth() == 4
      ensures PathKept(s.mem, s'.mem, r, v, q, u)
    {
      assert PathChange(s.mem, s'.mem, r, Down(up, i), Target(e), q, u);
    }
    if UserOk(s.mem, s.tables) && MayMap(s, r, v, flags) {
      WriteKeepsUser(s.mem, s.tables, s.kroot, f, i, e);
    }
  }

  /** Where the path continues once the gap is closed. */
  lemma SetReaches(s: Space, r: nat, v: Word, up: Trail, i: nat, e: Word)
    requires Gap(s, r, v, up, i) && MaySet(s, r, up, i, e)
    requires Follow(s.mem, r, up).value in s.tables
    ensures var m' := EntrySet(s, r, up, i, e).mem;
            Follow(m', r, Down(up, i)) == Some(Target(e)) &&
            forall j :: 0 <= j < SLOTS ==> Follow(m', r, Down(Down(up, i), j)) == None
  {
    OnPathFacts(v, up, i);
    GapEntry(s, r, v, up, i);
    SetChanges(s, r, up, i, e);
    var s' := EntrySet(s, r, up, i, e);
    assert PathChange(s.mem, s'.mem, r, Down(up, i), Target(e), r, Down(up, i));
    forall j | 0 <= j < SLOTS
      ensures Follow(s'.mem, r, Down(Down(up, i), j)) == None
    {
      assert Read(s.mem, Target(e), j) == 0;
    }
  }

  /** Linking a table in the gap: the invariant stays, no page moves, and the path goes on. */
  lemma LinkKeeps(s: Space, r: nat, flags: Word, v: Word, up: Trail, i: nat)
    requires Gap(s, r, v, up, i) && s.pos < |s.frames| && Flags(flags)
    ensures var s' := Link(s, Follow(s.mem, r, up).value, i, flags);
            && BootInv(s') && HalfOk(s') && Linked(s, s', r, v) && UserKept(s, s', r, v, flags)
            && s'.pos == s.pos + 1 && NewTablesTaken(s, s')
            && Follow(s'.mem, r, Down(up, i)) == Some(HeadFrame(s))
            && forall j :: 0 <= j < SLOTS ==> Follow(s'.mem, r, Down(Down(up, i), j)) == None
    ensures Inv(s) ==> Inv(Link(s, Follow(s.mem, r, up).value, i, flags))
  {
    var e, s1 := Entry(HeadFrame(s), flags), Popped(s);
    PoppedGap(s, r, flags, v, up, i);
    MayLink(s, r, flags, v, up, i);
    PopLinks(s, r, v, flags);
    GapEntry(s1, r, v, up, i);
    SetKeepsBoot(s1, r, up, i, e);
    SetLinks(s1, r, flags, v, up, i, e);
    SetReaches(s1, r, v, up, i, e);
    var s' := EntrySet(s1, r, up, i, e);
    LinkedThen(s, s1, s', r, v, flags);
    HeadFacts(s);
    assert s.frames[s.pos] == HeadFrame(s);
    if Inv(s) {
      LinkedWindow(s, s', r, v);
    }
  }

  /** The window stays where it is as long as no page moves. */
  lemma LinkedWindow(s: Space, s': Space, r: nat, v: Word)
    requires Inv(s) && Linked(s, s', r, v)
    ensures WindowOk(s')
  {
    forall f | s'.lo <= f < s'.hi
      ensures InWindow(s', f)
    {
      KernelAddress(KernPage(f));
      assert InWindow(s, f);
      assert PathKept(s.mem, s'.mem, r, v, s.kroot, Page(KernPage(f)));
    }
  }

  // ---- Setting the page table entry ----

  /** Whether v may be mapped once its page table is there. */
  ghost predicate AtLeaf(s: Space, r: nat, v: Word) {
    BootInv(s) && IsRoot(s.tables, r) && I4(v) != SELF && Follow(s.mem, r, Dir1(v)).Some?
  }

  /** Setting the entry in the page table moves that page and no other. */
  lemma LeafKeeps(s: Space, r: nat, v: Word, p: nat, flags: Word)
    requires AtLeaf(s, r, v) && p < FRAME_LIMIT && Flags(flags)
    ensures var s' := MapPt(s, Follow(s.mem, r, Dir1(v)).value, v, p, flags);
            && BootInv(s') && PageMapped(s, s', r, v, p) && UserKept(s, s', r, v, flags) && s'.pos == s.pos
            && NewTablesTaken(s, s')
            && (HalfOk(s) ==> HalfOk(s'))
    ensures Inv(s) && Follow(s.mem, r, Page(v)) == None ==>
              Inv(MapPt(s, Follow(s.mem, r, Dir1(v)).value, v, p, flags))
  {
    var up, i, e := Dir1(v), I1(v), Entry(p, flags);
    var f, s' := Follow(s.mem, r, up).value, MapPt(s, Follow(s.mem, r, up).value, v, p, flags);
    OnPathFacts(v, up, i);
    FollowArrives(s.mem, s.tables, s.kroot, r, up);
    assert NodeOk(s.tables, f);
    SetKeepsBoot(s, r, up, i, e);
    SetChanges(s, r, up, i, e);
    if UserOk(s.mem, s.tables) && MayMap(s, r, v, flags) {
      WriteKeepsUser(s.mem, s.tables, s.kroot, f, i, e);
    }
    if Inv(s) && Follow(s.mem, r, Page(v)) == None {
      MappedWindow(s, s', r, v, p);
    }
  }

  /** Mapping a page that was not mapped leaves the window in place. */
  lemma MappedWindow(s: Space, s': Space, r: nat, v: Word, p: nat)
    requires Inv(s) && IsRoot(s.tables, r) && PageMapped(s, s', r, v, p) && Follow(s.mem, r, Page(v)) == None
    ensures WindowOk(s')
  {
    forall f | s'.lo <= f < s'.hi
      ensures InWindow(s', f)
    {
      var u := Page(KernPage(f));
      KernelAddress(KernPage(f));
      assert InWindow(s, f);
      SharedHalf(s.mem, s.tables, s.kroot, r, u);
      assert PathChange(s.mem, s'.mem, r, Page(v), p, s.kroot, u);
    }
  }

  // ---- The whole walk ----

  /** The outcome of mapping v to frame p: the invariant, the effect on all pages of all address
      spaces, user access, and the number of frames taken. */
  ghost predicate Outcome(s: Space, s': Space, r: nat, v: Word, p: nat, flags: Word, taken: nat) {
    && BootInv(s') && HalfOk(s')
    && PageMapped(s, s', r, v, p)
    && UserKept(s, s', r, v, flags)
    && NewTablesTaken(s, s')
    && s'.pos == s.pos + taken
    && (Inv(s) && Follow(s.mem, r, Page(v)) == None ==> Inv(s'))
  }

  /** Whether root r may map v to frame p now: enough frames for the missing tables. */
  ghost predicate CanMap(s: Space, r: nat, v: Word, p: nat, flags: Word) {
    && BootInv(s) && HalfOk(s) && IsRoot(s.tables, r) && I4(v) != SELF
    && p < FRAME_LIMIT && Flags(flags)
    && Missing(s.mem, r, v) <= |s.frames| - s.pos
  }

  /** The lower two steps of the walk, by what its path finds. */
  lemma MapPdIs(s: Space, r: nat, v: Word, p: nat, flags: Word)
    requires Flags(flags) && p < FRAME_LIMIT && Follow(s.mem, r, Dir2(v)).Some?
    ensures var pd := Follow(s.mem, r, Dir2(v)).value;
            MapPd(s, pd, v, p, flags)
            == if Follow(s.mem, r, Dir1(v)).Some? then MapPt(s, Follow(s.mem, r, Dir1(v)).value, v, p, flags)
               else MapPt(Link(s, pd, I2(v), flags), HeadFrame(s), v, p, flags)
  {
    hide MapPt, Link;
  }

  lemma MapPdptIs(s: Space, r: nat, v: Word, p: nat, flags: Word)
    requires Flags(flags) && p < FRAME_LIMIT && Follow(s.mem, r, Dir3(v)).Some?
    ensures var pdpt := Follow(s.mem, r, Dir3(v)).value;
            MapPdpt(s, pdpt, v, p, flags)
            == if Follow(s.mem, r, Dir2(v)).Some? then MapPd(s, Follow(s.mem, r, Dir2(v)).value, v, p, flags)
               else MapPd(Link(s, pdpt, I3(v), flags), HeadFrame(s), v, p, flags)
  {
    hide MapPd, Link;
  }

  lemma MapPdOutcome(s: Space, r: nat, v: Word, p: nat, flags: Word)
    requires CanMap(s, r, v, p, flags) && Follow(s.mem, r, Dir2(v)).Some?
    ensures Outcome(s, MapPd(s, Follow(s.mem, r, Dir2(v)).value, v, p, flags), r, v, p, flags, Missing(s.mem, r, v))
  {
    hide MapPt, MapPd, Link;
    MapPdIs(s, r, v, p, flags);
    if Follow(s.mem, r, Dir1(v)).Some? {
      LeafKeeps(s, r, v, p, flags);
    } else {
      var s1 := Link(s, Follow(s.mem, r, Dir2(v)).value, I2(v), flags);
      assert Gap(s, r, v, Dir2(v), I2(v));
      LinkKeeps(s, r, flags, v, Dir2(v), I2(v));
      assert Follow(s1.mem, r, Page(v)) == None;
      LeafKeeps(s1, r, v, p, flags);
      LinkedThen(s, s1, MapPt(s1, HeadFrame(s), v, p, flags), r, v, flags);
      TakenThen(s, s1, MapPt(s1, HeadFrame(s), v, p, flags));
    }
  }

  lemma MapPdptOutcome(s: Space, r: nat, v: Word, p: nat, flags: Word)
    requires CanMap(s, r, v, p, flags) && Follow(s.mem, r, Dir3(v)).Some?
    ensures Outcome(s, MapPdpt(s, Follow(s.mem, r, Dir3(v)).value, v, p, flags), r, v, p, flags, Missing(s.mem, r, v))
  {
    hide MapPd, MapPdpt, Link;
    MapPdptIs(s, r, v, p, flags);
    if Follow(s.mem, r, Dir2(v)).Some? {
      MapPdOutcome(s, r, v, p, flags);
    } else {
      var s1 := Link(s, Follow(s.mem, r, Dir3(v)).value, I3(v), flags);
      assert Gap(s, r, v, Dir3(v), I3(v));
      LinkKeeps(s, r, flags, v, Dir3(v), I3(v));
      assert Follow(s1.mem, r, Dir1(v)) == None;
      assert Follow(s1.mem, r, Page(v)) == None;
      MapPdOutcome(s1, r, v, p, flags);
      LinkedThen(s, s1, MapPd(s1, HeadFrame(s), v, p, flags), r, v, flags);
      TakenThen(s, s1, MapPd(s1, HeadFrame(s), v, p, flags));
    }
  }

  /** Mapping a page by index: in all address spaces, the page at v moves to frame p for those
      who see it and nothing else moves; one frame is taken for each missing table. */
  lemma MapDirectOutcome(s: Space, r: nat, v: Word, p: nat, flags: Word)
    requires CanMap(s, r, v, p, flags)
    ensures Outcome(s, MapDirect(s, r, v, p, flags), r, v, p, flags, Missing(s.mem, r, v))
  {
    if Follow(s.mem, r, Dir3(v)).Some? {
      MapPdptOutcome(s, r, v, p, flags);
    } else {
      var s1 := Link(s, r, I4(v), flags);
      assert Follow(s.mem, r, Root) == Some(r);
      assert Gap(s, r, v, Root, I4(v));
      LinkKeeps(s, r, flags, v, Root, I4(v));
      assert Follow(s1.mem, r, Dir3(v)) == Some(HeadFrame(s));
      assert Follow(s1.mem, r, Dir2(v)) == None;
      assert Follow(s1.mem, r, Dir1(v)) == None;
      assert Follow(s1.mem, r, Page(v)) == None;
      MapPdptOutcome(s1, r, v, p, flags);
      LinkedThen(s, s1, MapPdpt(s1, HeadFrame(s), v, p, flags), r, v, flags);
      TakenThen(s, s1, MapPdpt(s1, HeadFrame(s), v, p, flags));
    }
  }

  /** The same in terms of addresses: every canonical address outside slot 510 translates as
      before, in every address space, except those in the page of v as seen by r, or by all if
      v is in the shared half. */
  lemma MappedTranslations(s: Space, s': Space, r: nat, v: Word, p: nat, q: nat, w: Word)
    requires PageMapped(s, s', r, v, p) && IsRoot(s.tables, q) && Canonical(v)
    ensures I4(w) != SELF ==>
              Translate(s'.mem, q, w) ==
              if Canonical(w) && w / 4096 == v / 4096 && Sees(r, q, Page(v)) then Some(4096 * p + w % 4096)
              else Translate(s.mem, q, w)
    ensures q != r && I4(v) != KERNEL_HALF ==> Translate(s'.mem, q, w) == Translate(s.mem, q, w)
  {
    assert PathChange(s.mem, s'.mem, r, Page(v), p, q, Page(w));
    if Canonical(w) {
      PageIdentifies(v, w);
    }
  }
}
