/** The entries that page_walk and page_walk_user store: what is in use stays as it is, and everything
    new carries the flags of the walk that made it, at all four levels and in both halves. */
module Entries {
  import opened Words
  import opened Mmu
  import opened PageTree
  import opened AddressSpace
  import opened Mapping
  import opened Ranges

  /** Entry i of table f stays if it was in use, and has these flags if it is new. */
  predicate EntryMade(s: Space, s': Space, flags: Word, f: nat, i: nat) {
    var e, e' := Read(s.mem, f, i), Read(s'.mem, f, i);
    if f in s.tables && Present(e) then e' == e else Present(e') ==> e' % 4096 == flags
  }

  ghost predicate EntriesMade(s: Space, s': Space, flags: Word) {
    && (forall f :: f in s.tables ==> f in s'.tables)
    && forall f: nat, i: nat {:trigger EntryMade(s, s', flags, f, i)} ::
         f in s'.tables && i < SLOTS ==> EntryMade(s, s', flags, f, i)
  }

  lemma MadeThen(s: Space, s1: Space, s2: Space, flags: Word)
    requires EntriesMade(s, s1, flags) && EntriesMade(s1, s2, flags)
    ensures EntriesMade(s, s2, flags)
  {
    forall f: nat, i: nat | f in s2.tables && i < SLOTS
      ensures EntryMade(s, s2, flags, f, i)
    {
      assert EntryMade(s1, s2, flags, f, i);
      if f in s1.tables { assert EntryMade(s, s1, flags, f, i); }
    }
  }

  /** The page table entry of v; zero when there is no page table. */
  function LeafEntry(m: Memory, r: nat, v: Word): Word {
    match Follow(m, r, Dir1(v))
    case None => 0
    case Some(f) => Read(m, f, I1(v))
  }

  lemma PopMade(s: Space, flags: Word)
    requires BootInv(s) && s.pos < |s.frames|
    ensures EntriesMade(s, Popped(s), flags)
  {
    StatusWord(s);
    forall f: nat, i: nat | f in s.tables && i < SLOTS
      ensures EntryMade(s, Popped(s), flags, f, i)
    {
      assert !ListFrame(s, f);
    }
  }

  /** A table linked in a gap: one entry, and a table without any. */
  lemma PutMade(s: Space, f: nat, i: nat, c: nat, flags: Word)
    requires f in s.tables && !Present(Read(s.mem, f, i)) && c < FRAME_LIMIT && Flags(flags)
    requires s.tables[f].level > 1 ==> c !in s.tables && ZeroFrame(s.mem, c)
    ensures EntriesMade(s, Put(s, f, i, Entry(c, flags)), flags)
  {
    var s' := Put(s, f, i, Entry(c, flags));
    forall g: nat, j: nat | g in s'.tables && j < SLOTS
      ensures EntryMade(s, s', flags, g, j)
    {
      if g !in s.tables { assert g == c && Read(s.mem, g, j) == 0; }
    }
  }

  lemma LinkMade(s: Space, r: nat, v: Word, up: Trail, i: nat, flags: Word)
    requires Gap(s, r, v, up, i) && s.pos < |s.frames| && Flags(flags)
    ensures EntriesMade(s, Link(s, Follow(s.mem, r, up).value, i, flags), flags)
  {
    hide EntriesMade, Put, Popped, TreeOk, ListOk, FreeOk, Follow;
    var f, s1, c := Follow(s.mem, r, up).value, Popped(s), HeadFrame(s);
    PopMade(s, flags);
    PoppedGap(s, r, flags, v, up, i);
    GapEntry(s1, r, v, up, i);
    HeadIsFresh(s);
    PutMade(s1, f, i, c, flags);
    MadeThen(s, s1, Put(s1, f, i, Entry(c, flags)), flags);
  }

  lemma HeadIsFresh(s: Space)
    requires BootInv(s) && s.pos < |s.frames|
    ensures HeadFrame(s) !in Popped(s).tables && ZeroFrame(Popped(s).mem, HeadFrame(s))
  {
    HeadFacts(s);
    PopKeepsBoot(s);
  }

  /** The page table entry itself, for a page that was free. */
  lemma LeafMade(s: Space, r: nat, v: Word, f: nat, p: nat, flags: Word)
    requires TreeOk(s.mem, s.tables, s.kroot) && IsRoot(s.tables, r) && I4(v) != SELF
    requires Follow(s.mem, r, Dir1(v)) == Some(f) && Follow(s.mem, r, Page(v)) == None
    requires p < FRAME_LIMIT && Flags(flags)
    ensures LeafEntry(MapPt(s, f, v, p, flags).mem, r, v) == Entry(p, flags)
    ensures f in s.tables && s.tables[f].level == 1 && !Present(Read(s.mem, f, I1(v)))
  {
    hide TreeOk, Follow;
    TableStays(s.mem, s.tables, s.kroot, r, v, f, Entry(p, flags));
    assert MapPt(s, f, v, p, flags).mem == Write(s.mem, f, I1(v), Entry(p, flags));
  }

  lemma LeafEntryMade(s: Space, f: nat, v: Word, p: nat, flags: Word)
    requires f in s.tables && s.tables[f].level == 1 && !Present(Read(s.mem, f, I1(v)))
    requires p < FRAME_LIMIT && Flags(flags)
    ensures EntriesMade(s, MapPt(s, f, v, p, flags), flags)
  {
    PutMade(s, f, I1(v), p, flags);
  }

  /** The page table is where it was once its entry is set. */
  lemma TableStays(m: Memory, T: Tables, k: nat, r: nat, v: Word, f: nat, e: Word)
    requires TreeOk(m, T, k) && IsRoot(T, r) && I4(v) != SELF
    requires Follow(m, r, Dir1(v)) == Some(f) && Follow(m, r, Page(v)) == None && GoodEntry(e) && Present(e)
    ensures f in T && T[f].level == 1 && !Present(Read(m, f, I1(v)))
    ensures Follow(Write(m, f, I1(v), e), r, Dir1(v)) == Some(f)
  {
    hide TreeOk, GoodEntry, Present;
    OnPathFacts(v, Dir1(v), I1(v));
    FollowArrives(m, T, k, r, Dir1(v));
    WriteAt(m, T, k, r, Dir1(v), I1(v), e, r, Dir1(v));
  }

  lemma AtTree(s: Space)
    requires BootInv(s)
    ensures TreeOk(s.mem, s.tables, s.kroot)
  {
  }

  lemma PdMade(s: Space, r: nat, v: Word, p: nat, flags: Word)
    requires CanMap(s, r, v, p, flags) && Follow(s.mem, r, Dir2(v)).Some? && Follow(s.mem, r, Page(v)) == None
    ensures var s' := MapPd(s, Follow(s.mem, r, Dir2(v)).value, v, p, flags);
            EntriesMade(s, s', flags) && LeafEntry(s'.mem, r, v) == Entry(p, flags)
  {
    hide BootInv, HalfOk, UserKept, MapPt, MapPd, Link, EntriesMade, LeafEntry, Entry;
    MapPdIs(s, r, v, p, flags);
    if Follow(s.mem, r, Dir1(v)).Some? {
      AtTree(s);
      var f := Follow(s.mem, r, Dir1(v)).value;
      LeafMade(s, r, v, f, p, flags);
      LeafEntryMade(s, f, v, p, flags);
    } else {
      var s1 := Link(s, Follow(s.mem, r, Dir2(v)).value, I2(v), flags);
      assert Gap(s, r, v, Dir2(v), I2(v));
      LinkKeeps(s, r, flags, v, Dir2(v), I2(v));
      LinkMade(s, r, v, Dir2(v), I2(v), flags);
      assert Follow(s1.mem, r, Page(v)) == None;
      AtTree(s1);
      LeafMade(s1, r, v, HeadFrame(s), p, flags);
      LeafEntryMade(s1, HeadFrame(s), v, p, flags);
      MadeThen(s, s1, MapPt(s1, HeadFrame(s), v, p, flags), flags);
    }
  }

  lemma PdptMade(s: Space, r: nat, v: Word, p: nat, flags: Word)
    requires CanMap(s, r, v, p, flags) && Follow(s.mem, r, Dir3(v)).Some? && Follow(s.mem, r, Page(v)) == None
    ensures var s' := MapPdpt(s, Follow(s.mem, r, Dir3(v)).value, v, p, flags);
            EntriesMade(s, s', flags) && LeafEntry(s'.mem, r, v) == Entry(p, flags)
  {
    hide BootInv, HalfOk, UserKept, MapPd, MapPdpt, Link, EntriesMade, LeafEntry, Entry;
    MapPdptIs(s, r, v, p, flags);
    if Follow(s.mem, r, Dir2(v)).Some? {
      PdMade(s, r, v, p, flags);
    } else {
      var s1 := Link(s, Follow(s.mem, r, Dir3(v)).value, I3(v), flags);
      assert Gap(s, r, v, Dir3(v), I3(v));
      LinkKeeps(s, r, flags, v, Dir3(v), I3(v));
      LinkMade(s, r, v, Dir3(v), I3(v), flags);
      assert Follow(s1.mem, r, Dir1(v)) == None;
      assert Follow(s1.mem, r, Page(v)) == None;
      PdMade(s1, r, v, p, flags);
      MadeThen(s, s1, MapPd(s1, HeadFrame(s), v, p, flags), flags);
    }
  }

  /** Mapping a free page stores its frame with the flags of the walk, links tables with the same flags,
      and changes no entry in use. */
  lemma MapDirectMade(s: Space, r: nat, v: Word, p: nat, flags: Word)
    requires CanMap(s, r, v, p, flags) && Follow(s.mem, r, Page(v)) == None
    ensures var s' := MapDirect(s, r, v, p, flags);
            EntriesMade(s, s', flags) && LeafEntry(s'.mem, r, v) == 4096 * p + flags
  {
    hide BootInv, HalfOk, UserKept, MapPdpt, Link, EntriesMade, LeafEntry;
    if Follow(s.mem, r, Dir3(v)).Some? {
      PdptMade(s, r, v, p, flags);
    } else {
      var s1 := Link(s, r, I4(v), flags);
      assert Follow(s.mem, r, Root) == Some(r);
      assert Gap(s, r, v, Root, I4(v));
      LinkKeeps(s, r, flags, v, Root, I4(v));
      LinkMade(s, r, v, Root, I4(v), flags);
      assert Follow(s1.mem, r, Dir3(v)) == Some(HeadFrame(s));
      assert Follow(s1.mem, r, Dir2(v)) == None;
      assert Follow(s1.mem, r, Dir1(v)) == None;
      assert Follow(s1.mem, r, Page(v)) == None;
      PdptMade(s1, r, v, p, flags);
      MadeThen(s, s1, MapPdpt(s1, HeadFrame(s), v, p, flags), flags);
    }
  }

  // ---- Runs of pages ----

  lemma RoundMade(s: Space, r: nat, v: Word, flags: Word)
    requires BootInv(s) && HalfOk(s) && IsRoot(s.tables, r) && I4(v) != SELF && Flags(flags) && RoundFits(s, r, v)
    requires Follow(s.mem, r, Page(v)) == None
    ensures var s' := MapNext(s, r, v, flags);
            EntriesMade(s, s', flags) && LeafEntry(s'.mem, r, v) == 4096 * HeadFrame(s) + flags
  {
    hide BootInv, HalfOk, MapDirect, EntriesMade, LeafEntry, CanMap, Follow, Page;
    RoundOutcome(s, r, v, flags);
    PopMade(s, flags);
    MapDirectMade(Popped(s), r, v, HeadFrame(s), flags);
    MadeThen(s, Popped(s), MapNext(s, r, v, flags), flags);
  }

  /** Paths of tables stay while entries in use do. */
  lemma {:induction false} TablesStay(s: Space, s': Space, flags: Word, r: nat, t: Trail)
    requires TreeOk(s.mem, s.tables, s.kroot) && IsRoot(s.tables, r) && EntriesMade(s, s', flags)
    requires t.Legal() && t.Depth() <= 3 && Follow(s.mem, r, t).Some?
    ensures Follow(s'.mem, r, t) == Follow(s.mem, r, t)
    decreases t
  {
    if t.Down? {
      TablesStay(s, s', flags, r, t.up);
      FollowArrives(s.mem, s.tables, s.kroot, r, t.up);
      assert EntryMade(s, s', flags, Follow(s.mem, r, t.up).value, t.index);
    }
  }

  lemma LeafStays(s: Space, s': Space, flags: Word, r: nat, w: Word)
    requires TreeOk(s.mem, s.tables, s.kroot) && IsRoot(s.tables, r) && EntriesMade(s, s', flags)
    requires Present(LeafEntry(s.mem, r, w))
    ensures LeafEntry(s'.mem, r, w) == LeafEntry(s.mem, r, w)
  {
    TablesStay(s, s', flags, r, Dir1(w));
    FollowArrives(s.mem, s.tables, s.kroot, r, Dir1(w));
    assert EntryMade(s, s', flags, Follow(s.mem, r, Dir1(w)).value, I1(w));
  }

  /** The page table entries of a run hold its frames with the flags of the walk. */
  ghost predicate RunEntries(m: Memory, r: nat, v: Word, fs: seq<nat>, flags: Word) {
    forall i {:trigger PageAt(v, i)} :: 0 <= i < |fs| ==> LeafEntry(m, r, PageAt(v, i)) == 4096 * fs[i] + flags
  }

  lemma {:induction false} RunMade(s: Space, r: nat, v: Word, n: nat, flags: Word)
    requires CanMapRun(s, r, v, n, flags)
    ensures EntriesMade(s, MapRun(s, r, v, n, flags), flags)
    ensures RunEntries(MapRun(s, r, v, n, flags).mem, r, v, RunFrames(s, r, v, n, flags), flags)
    decreases n
  {
    hide *;
    if n == 0 {
      NothingMade(s, r, v, flags);
    } else {
      var k: nat := n - 1;
      LastRound(s, r, v, n, k, flags);
      RunMade(s, r, v, k, flags);
      RoundOfRun(s, r, v, n, k, flags);
      var s1, s2 := MapRun(s, r, v, k, flags), MapRun(s, r, v, n, flags);
      MadeThen(s, s1, s2, flags);
      EntriesOfRun(s1, s2, r, v, RunFrames(s, r, v, k, flags), HeadFrame(s1), flags);
    }
  }

  lemma NothingMade(s: Space, r: nat, v: Word, flags: Word)
    requires CanMapRun(s, r, v, 0, flags)
    ensures EntriesMade(s, MapRun(s, r, v, 0, flags), flags)
    ensures RunEntries(MapRun(s, r, v, 0, flags).mem, r, v, RunFrames(s, r, v, 0, flags), flags)
  {
  }

  lemma RoundOfRun(s: Space, r: nat, v: Word, n: nat, k: nat, flags: Word)
    requires CanMapRun(s, r, v, n, flags) && n == k + 1
    ensures var s1, s2 := MapRun(s, r, v, k, flags), MapRun(s, r, v, n, flags);
            && EntriesMade(s1, s2, flags) && LeafEntry(s2.mem, r, PageAt(v, k)) == 4096 * HeadFrame(s1) + flags
            && TreeOk(s1.mem, s1.tables, s1.kroot) && IsRoot(s1.tables, r) && Flags(flags)
  {
    hide MapNext, EntriesMade, LeafEntry, Follow, Page, TreeOk, ListOk, FreeOk, RunChange, RunFits;
    ShorterRun(s, r, v, n, k, flags);
    RunStep(s, r, v, k, flags);
    RunOutcome(s, r, v, k, flags);
    var s1, w := MapRun(s, r, v, k, flags), PageAt(v, k);
    PageStillFree(s, s1, r, v, RunFrames(s, r, v, k, flags), n);
    WindowHalf(s1);
    RoundMade(s1, r, w, flags);
  }

  lemma WindowHalf(s: Space)
    requires Inv(s)
    ensures BootInv(s) && HalfOk(s)
  {
  }

  lemma EntriesOfRun(s1: Space, s2: Space, r: nat, v: Word, fs: seq<nat>, c: nat, flags: Word)
    requires TreeOk(s1.mem, s1.tables, s1.kroot) && IsRoot(s1.tables, r) && EntriesMade(s1, s2, flags) && Flags(flags)
    requires RunEntries(s1.mem, r, v, fs, flags) && LeafEntry(s2.mem, r, PageAt(v, |fs|)) == 4096 * c + flags
    ensures RunEntries(s2.mem, r, v, fs + [c], flags)
  {
    hide TreeOk, EntriesMade, LeafEntry;
    forall i | 0 <= i < |fs| + 1
      ensures LeafEntry(s2.mem, r, PageAt(v, i)) == 4096 * (fs + [c])[i] + flags
    {
      if i < |fs| {
        assert LeafEntry(s1.mem, r, PageAt(v, i)) == 4096 * fs[i] + flags;
        LeafStays(s1, s2, flags, r, PageAt(v, i));
      }
    }
  }
}
