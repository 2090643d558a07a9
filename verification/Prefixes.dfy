/** Which tables exist after mapping pages, and how many frames they cost: one for each table
    prefix of the mapped pages that was missing. */
module Prefixes {
  import opened Words
  import opened Mmu
  import opened PageTree
  import opened AddressSpace
  import opened Mapping
  import opened Ranges

  /** The paths of the three tables that the walk of v goes through. */
  function Dirs(v: Word): set<Trail> {
    {Dir3(v), Dir2(v), Dir1(v)}
  }

  /** Whether a path can be that of a table below a PML4, outside the recursive window. */
  predicate TablePath(t: Trail) {
    t.Legal() && t.Depth() <= 3 && t.Direct()
  }

  /** After mapping v the tables on its path exist, and all others are where they were. */
  predicate DirChange(m: Memory, m': Memory, r: nat, added: set<Trail>, t: Trail) {
    && (Follow(m', r, t).Some? <==> Follow(m, r, t).Some? || t in added)
    && (Follow(m, r, t).Some? ==> Follow(m', r, t) == Follow(m, r, t))
  }

  ghost predicate DirsAdded(m: Memory, m': Memory, r: nat, added: set<Trail>) {
    forall t: Trail {:trigger DirChange(m, m', r, added, t)} :: TablePath(t) ==> DirChange(m, m', r, added, t)
  }

  lemma DirsAddedThen(m: Memory, m1: Memory, m2: Memory, r: nat, a: set<Trail>, b: set<Trail>)
    requires DirsAdded(m, m1, r, a) && DirsAdded(m1, m2, r, b)
    ensures DirsAdded(m, m2, r, a + b)
  {
    forall t: Trail | TablePath(t)
      ensures DirChange(m, m2, r, a + b, t)
    {
      assert DirChange(m, m1, r, a, t) && DirChange(m1, m2, r, b, t);
    }
  }

  /** Paths that exist already may be named as new. */
  lemma DirsAddedMore(m: Memory, m': Memory, r: nat, a: set<Trail>, b: set<Trail>)
    requires DirsAdded(m, m', r, a) && a <= b
    requires forall t :: t in b - a ==> Follow(m, r, t).Some?
    ensures DirsAdded(m, m', r, b)
  {
    forall t: Trail | TablePath(t)
      ensures DirChange(m, m', r, b, t)
    {
      assert DirChange(m, m', r, a, t);
    }
  }

  lemma LinkAddsDir(s: Space, r: nat, flags: Word, v: Word, up: Trail, i: nat)
    requires Gap(s, r, v, up, i) && s.pos < |s.frames| && Flags(flags)
    ensures DirsAdded(s.mem, Link(s, Follow(s.mem, r, up).value, i, flags).mem, r, {Down(up, i)})
  {
    var e, s1 := Entry(HeadFrame(s), flags), Popped(s);
    PoppedGap(s, r, flags, v, up, i);
    MayLink(s, r, flags, v, up, i);
    PopLinks(s, r, v, flags);
    GapEntry(s1, r, v, up, i);
    SetChanges(s1, r, up, i, e);
    var s' := EntrySet(s1, r, up, i, e);
    forall t: Trail | TablePath(t)
      ensures DirChange(s.mem, s'.mem, r, {Down(up, i)}, t)
    {
      assert Follow(s1.mem, r, t) == Follow(s.mem, r, t);
      assert PathChange(s1.mem, s'.mem, r, Down(up, i), Target(e), r, t);
    }
  }

  lemma LeafAddsNone(s: Space, r: nat, v: Word, p: nat, flags: Word)
    requires AtLeaf(s, r, v) && p < FRAME_LIMIT && Flags(flags)
    ensures DirsAdded(s.mem, MapPt(s, Follow(s.mem, r, Dir1(v)).value, v, p, flags).mem, r, {})
  {
    var up, i, e := Dir1(v), I1(v), Entry(p, flags);
    OnPathFacts(v, up, i);
    FollowArrives(s.mem, s.tables, s.kroot, r, up);
    assert NodeOk(s.tables, Follow(s.mem, r, up).value);
    SetChanges(s, r, up, i, e);
    var s' := EntrySet(s, r, up, i, e);
    forall t: Trail | TablePath(t)
      ensures DirChange(s.mem, s'.mem, r, {}, t)
    {
      assert PathChange(s.mem, s'.mem, r, Page(v), p, r, t);
    }
  }

  lemma MapPdDirs(s: Space, r: nat, v: Word, p: nat, flags: Word)
    requires CanMap(s, r, v, p, flags) && Follow(s.mem, r, Dir2(v)).Some?
    ensures DirsAdded(s.mem, MapPd(s, Follow(s.mem, r, Dir2(v)).value, v, p, flags).mem, r, {Dir1(v)})
  {
    hide MapPt, MapPd, Link;
    MapPdIs(s, r, v, p, flags);
    if Follow(s.mem, r, Dir1(v)).Some? {
      LeafAddsNone(s, r, v, p, flags);
      DirsAddedMore(s.mem, MapPt(s, Follow(s.mem, r, Dir1(v)).value, v, p, flags).mem, r, {}, {Dir1(v)});
    } else {
      var s1 := Link(s, Follow(s.mem, r, Dir2(v)).value, I2(v), flags);
      assert Gap(s, r, v, Dir2(v), I2(v));
      LinkKeeps(s, r, flags, v, Dir2(v), I2(v));
      LinkAddsDir(s, r, flags, v, Dir2(v), I2(v));
      LeafAddsNone(s1, r, v, p, flags);
      DirsAddedThen(s.mem, s1.mem, MapPt(s1, HeadFrame(s), v, p, flags).mem, r, {Dir1(v)}, {});
      assert {Dir1(v)} + {} == {Dir1(v)};
    }
  }

  lemma MapPdptDirs(s: Space, r: nat, v: Word, p: nat, flags: Word)
    requires CanMap(s, r, v, p, flags) && Follow(s.mem, r, Dir3(v)).Some?
    ensures DirsAdded(s.mem, MapPdpt(s, Follow(s.mem, r, Dir3(v)).value, v, p, flags).mem, r, {Dir2(v), Dir1(v)})
  {
    hide MapPd, MapPdpt, Link;
    MapPdptIs(s, r, v, p, flags);
    if Follow(s.mem, r, Dir2(v)).Some? {
      MapPdDirs(s, r, v, p, flags);
      DirsAddedMore(s.mem, MapPd(s, Follow(s.mem, r, Dir2(v)).value, v, p, flags).mem, r, {Dir1(v)},
                    {Dir2(v), Dir1(v)});
    } else {
      var s1 := Link(s, Follow(s.mem, r, Dir3(v)).value, I3(v), flags);
      assert Gap(s, r, v, Dir3(v), I3(v));
      LinkKeeps(s, r, flags, v, Dir3(v), I3(v));
      LinkAddsDir(s, r, flags, v, Dir3(v), I3(v));
      assert Follow(s1.mem, r, Dir1(v)) == None;
      MapPdDirs(s1, r, v, p, flags);
      DirsAddedThen(s.mem, s1.mem, MapPd(s1, HeadFrame(s), v, p, flags).mem, r, {Dir2(v)}, {Dir1(v)});
      assert {Dir2(v)} + {Dir1(v)} == {Dir2(v), Dir1(v)};
    }
  }

  /** Mapping v brings exactly the tables on its path into being. */
  lemma MapDirectDirs(s: Space, r: nat, v: Word, p: nat, flags: Word)
    requires CanMap(s, r, v, p, flags)
    ensures DirsAdded(s.mem, MapDirect(s, r, v, p, flags).mem, r, Dirs(v))
  {
    if Follow(s.mem, r, Dir3(v)).Some? {
      MapPdptDirs(s, r, v, p, flags);
      DirsAddedMore(s.mem, MapPdpt(s, Follow(s.mem, r, Dir3(v)).value, v, p, flags).mem, r, {Dir2(v), Dir1(v)},
                    Dirs(v));
    } else {
      var s1 := Link(s, r, I4(v), flags);
      assert Follow(s.mem, r, Root) == Some(r);
      assert Gap(s, r, v, Root, I4(v));
      LinkKeeps(s, r, flags, v, Root, I4(v));
      LinkAddsDir(s, r, flags, v, Root, I4(v));
      assert Follow(s1.mem, r, Dir3(v)) == Some(HeadFrame(s));
      assert Follow(s1.mem, r, Dir2(v)) == None;
      assert Follow(s1.mem, r, Dir1(v)) == None;
      MapPdptDirs(s1, r, v, p, flags);
      DirsAddedThen(s.mem, s1.mem, MapPdpt(s1, HeadFrame(s), v, p, flags).mem, r, {Dir3(v)}, {Dir2(v), Dir1(v)});
      assert {Dir3(v)} + {Dir2(v), Dir1(v)} == Dirs(v);
    }
  }

  // ---- Counting ----

  /** The table paths of the first n pages from v. */
  function RunDirs(v: Word, n: nat): (ts: set<Trail>)
    ensures forall t :: t in ts ==> t.Legal() && 1 <= t.Depth() <= 3
  {
    if n == 0 then {} else RunDirs(v, n - 1) + Dirs(PageAt(v, n - 1))
  }

  /** Those of them that are missing. */
  function Absent(m: Memory, r: nat, ts: set<Trail>): set<Trail> {
    set t | t in ts && Follow(m, r, t) == None
  }

  /** The tables missing on the path of v are what Missing counts. */
  lemma MissingIsAbsent(m: Memory, r: nat, v: Word)
    ensures |Absent(m, r, Dirs(v))| == Missing(m, r, v)
  {
    var a := Absent(m, r, Dirs(v));
    if Follow(m, r, Dir3(v)) == None {
      assert a == {Dir3(v), Dir2(v), Dir1(v)};
    } else if Follow(m, r, Dir2(v)) == None {
      assert a == {Dir2(v), Dir1(v)};
    } else if Follow(m, r, Dir1(v)) == None {
      assert a == {Dir1(v)};
    } else {
      assert a == {};
    }
  }

  /** Mapping v takes from the missing tables of a larger collection those on the path of v. */
  lemma AbsentShrinks(m: Memory, m': Memory, r: nat, v: Word, ts: set<Trail>)
    requires DirsAdded(m, m', r, Dirs(v)) && Dirs(v) <= ts && I4(v) != SELF
    requires forall t :: t in ts ==> TablePath(t)
    ensures Absent(m', r, ts) == Absent(m, r, ts) - Absent(m, r, Dirs(v))
    ensures |Absent(m', r, ts)| == |Absent(m, r, ts)| - Missing(m, r, v)
  {
    forall t | t in ts
      ensures t in Absent(m', r, ts) <==> t in Absent(m, r, ts) - Absent(m, r, Dirs(v))
    {
      assert DirChange(m, m', r, Dirs(v), t);
    }
    assert Absent(m, r, Dirs(v)) <= Absent(m, r, ts);
    MissingIsAbsent(m, r, v);
  }
}
