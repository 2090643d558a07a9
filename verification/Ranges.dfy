/** Mapping runs of pages: the loop that all kmalloc variants share, as a function of the memory,
    and what it does to every translation. */
module Ranges {
  import opened Words
  import opened Mmu
  import opened PageTree
  import opened AddressSpace
  import opened Mapping

  /** Page i of the run that starts at v. */
  function PageAt(v: Word, i: nat): (w: Word) {
    if v + 4096 * i < WORD_LIMIT then v + 4096 * i else 0
  }

  /** A run that stays below the end of the address space, is canonical and out of slot 510. */
  ghost predicate GoodRun(v: Word, n: nat) {
    && v + 4096 * n < WORD_LIMIT
    && forall i :: 0 <= i < n ==> Canonical(PageAt(v, i)) && I4(PageAt(v, i)) != SELF
  }

  /** One round of the loop: take a frame, map it at v. */
  function MapNext(s: Space, r: nat, v: Word, flags: Word): Space
    requires Flags(flags)
  {
    MapDirect(Popped(s), r, v, HeadFrame(s), flags)
  }

  /** n rounds. */
  function MapRun(s: Space, r: nat, v: Word, n: nat, flags: Word): Space
    requires Flags(flags)
  {
    if n == 0 then s else MapNext(MapRun(s, r, v, n - 1, flags), r, PageAt(v, n - 1), flags)
  }

  /** The frames that the rounds map, in order. */
  function RunFrames(s: Space, r: nat, v: Word, n: nat, flags: Word): (fs: seq<nat>)
    requires Flags(flags)
    ensures |fs| == n
  {
    if n == 0 then []
    else RunFrames(s, r, v, n - 1, flags) + [HeadFrame(MapRun(s, r, v, n - 1, flags))]
  }

  /** Whether the list has the frames that n rounds take, for pages and for missing tables. */
  ghost predicate RunFits(s: Space, r: nat, v: Word, n: nat, flags: Word)
    requires Flags(flags)
  {
    forall i {:trigger RoundOk(s, r, v, flags, i)} :: 0 <= i < n ==> RoundOk(s, r, v, flags, i)
  }

  predicate RoundOk(s: Space, r: nat, v: Word, flags: Word, i: nat)
    requires Flags(flags)
  {
    RoundFits(MapRun(s, r, v, i, flags), r, PageAt(v, i))
  }

  predicate RoundFits(s: Space, r: nat, v: Word) {
    1 + Missing(s.mem, r, v) <= |s.frames| - s.pos
  }

  /** The frame that the run fs from v puts at the page with path u, if any. */
  function Placed(v: Word, fs: seq<nat>, u: Trail): Option<nat> {
    if fs == [] then None
    else if u == Page(PageAt(v, |fs| - 1)) then Some(fs[|fs| - 1])
    else Placed(v, fs[..|fs| - 1], u)
  }

  /** How the run shows at path u of root q. */
  predicate RunChange(m: Memory, m': Memory, r: nat, v: Word, fs: seq<nat>, q: nat, u: Trail)
    requires u.Down?
  {
    && (u.Direct() ==>
          Follow(m', q, u) ==
          if Placed(v, fs, u).Some? && Sees(r, q, u) then Placed(v, fs, u) else Follow(m, q, u))
    && (q != r && (forall i :: 0 <= i < |fs| ==> I4(PageAt(v, i)) != KERNEL_HALF)
       ==> Follow(m', q, u) == Follow(m, q, u))
  }

  ghost predicate RunMapped(s: Space, s': Space, r: nat, v: Word, fs: seq<nat>) {
    && Extends(s, s')
    && (forall q, u: Trail {:trigger RunChange(s.mem, s'.mem, r, v, fs, q, u)} ::
          IsRoot(s.tables, q) && u.Legal() && u.Depth() == 4 ==> RunChange(s.mem, s'.mem, r, v, fs, q, u))
  }

  /** The pages of a run have different paths. */
  lemma RunPagesDiffer(v: Word, i: nat, j: nat, n: nat)
    requires GoodRun(v, n) && i < n && j < n && i != j
    ensures Page(PageAt(v, i)) != Page(PageAt(v, j))
  {
    PageIdentifies(PageAt(v, i), PageAt(v, j));
    assert PageAt(v, i) / 4096 == v / 4096 + i;
    assert PageAt(v, j) / 4096 == v / 4096 + j;
  }

  /** What is placed at page i of the run, and that nothing is placed elsewhere. */
  lemma {:induction false} PlacedAt(v: Word, fs: seq<nat>, n: nat, u: Trail)
    requires GoodRun(v, n) && |fs| <= n
    ensures forall i :: 0 <= i < |fs| && u == Page(PageAt(v, i)) ==> Placed(v, fs, u) == Some(fs[i])
    ensures (forall i :: 0 <= i < |fs| ==> u != Page(PageAt(v, i))) ==> Placed(v, fs, u) == None
    decreases fs
  {
    if fs != [] {
      var last := |fs| - 1;
      PlacedAt(v, fs[..last], n, u);
      forall i | 0 <= i < last && u == Page(PageAt(v, i))
        ensures u != Page(PageAt(v, last))
      {
        RunPagesDiffer(v, i, last, n);
      }
    }
  }

  lemma RunThenPage(s: Space, s1: Space, s2: Space, r: nat, v: Word, fs: seq<nat>, c: nat, n: nat)
    requires RunMapped(s, s1, r, v, fs) && PageMapped(s1, s2, r, PageAt(v, |fs|), c)
    ensures RunMapped(s, s2, r, v, fs + [c])
  {
    forall q, u: Trail | IsRoot(s.tables, q) && u.Legal() && u.Depth() == 4
      ensures RunChange(s.mem, s2.mem, r, v, fs + [c], q, u)
    {
      assert RunChange(s.mem, s1.mem, r, v, fs, q, u);
      assert IsRoot(s1.tables, q);
      assert PathChange(s1.mem, s2.mem, r, Page(PageAt(v, |fs|)), c, q, u);
      assert (fs + [c])[..|fs|] == fs;
    }
  }

  /** Taking a frame moves no page, so the round maps exactly one. */
  lemma RoundOutcome(s: Space, r: nat, v: Word, flags: Word)
    requires BootInv(s) && HalfOk(s) && IsRoot(s.tables, r) && I4(v) != SELF && Flags(flags) && RoundFits(s, r, v)
    ensures var s' := MapNext(s, r, v, flags);
            && BootInv(s') && HalfOk(s') && PageMapped(s, s', r, v, HeadFrame(s)) && UserKept(s, s', r, v, flags)
            && NewTablesTaken(s, s') && s'.pos == s.pos + 1 + Missing(s.mem, r, v)
            && (Inv(s) && Follow(s.mem, r, Page(v)) == None ==> Inv(s'))
    ensures CanMap(Popped(s), r, v, HeadFrame(s), flags)
    ensures Follow(Popped(s).mem, r, Page(v)) == Follow(s.mem, r, Page(v))
  {
    hide NewTablesTaken;
    var s1 := Popped(s);
    PopLinks(s, r, v, flags);
    PopKeepsBoot(s);
    HeadFacts(s);
    assert Follow(s1.mem, r, Dir3(v)) == Follow(s.mem, r, Dir3(v));
    assert Follow(s1.mem, r, Dir2(v)) == Follow(s.mem, r, Dir2(v));
    assert Follow(s1.mem, r, Dir1(v)) == Follow(s.mem, r, Dir1(v));
    assert Follow(s1.mem, r, Page(v)) == Follow(s.mem, r, Page(v));
    assert SameTables(s.mem, s1.mem, s.tables);
    MapDirectOutcome(s1, r, v, HeadFrame(s), flags);
    LinkedThen(s, s1, MapNext(s, r, v, flags), r, v, flags);
    TakenThen(s, s1, MapNext(s, r, v, flags));
    if Inv(s) {
      PopKeeps(s);
    }
  }

  lemma PageStillFree(s: Space, s1: Space, r: nat, v: Word, fs: seq<nat>, n: nat)
    requires RunMapped(s, s1, r, v, fs) && IsRoot(s.tables, r) && GoodRun(v, n) && |fs| == n - 1
    ensures Follow(s1.mem, r, Page(PageAt(v, n - 1))) == Follow(s.mem, r, Page(PageAt(v, n - 1)))
  {
    var u := Page(PageAt(v, n - 1));
    PlacedAt(v, fs, n, u);
    forall i | 0 <= i < |fs|
      ensures u != Page(PageAt(v, i))
    {
      RunPagesDiffer(v, i, n - 1, n);
    }
    assert RunChange(s.mem, s1.mem, r, v, fs, r, u);
  }

  /** Whether the run from v can be mapped: the frames are there and its pages are free. */
  ghost predicate CanMapRun(s: Space, r: nat, v: Word, n: nat, flags: Word) {
    && Inv(s) && IsRoot(s.tables, r) && Flags(flags) && GoodRun(v, n) && RunFits(s, r, v, n, flags)
    && forall i :: 0 <= i < n ==> Follow(s.mem, r, Page(PageAt(v, i))) == None
  }

  lemma RunStep(s: Space, r: nat, v: Word, k: nat, flags: Word)
    requires Flags(flags)
    ensures MapRun(s, r, v, k + 1, flags) == MapNext(MapRun(s, r, v, k, flags), r, PageAt(v, k), flags)
    ensures RunFrames(s, r, v, k + 1, flags) == RunFrames(s, r, v, k, flags) + [HeadFrame(MapRun(s, r, v, k, flags))]
  {
  }

  lemma ShorterRun(s: Space, r: nat, v: Word, n: nat, k: nat, flags: Word)
    requires CanMapRun(s, r, v, n, flags) && n == k + 1
    ensures CanMapRun(s, r, v, k, flags) && RoundFits(MapRun(s, r, v, k, flags), r, PageAt(v, k))
  {
    assert RoundOk(s, r, v, flags, k);
  }

  /** Mapping a run whose pages are all free: every page of the run gets its frame, and nothing
      else moves in any address space. */
  lemma {:induction false} RunOutcome(s: Space, r: nat, v: Word, n: nat, flags: Word)
    requires CanMapRun(s, r, v, n, flags)
    ensures Inv(MapRun(s, r, v, n, flags))
    ensures RunMapped(s, MapRun(s, r, v, n, flags), r, v, RunFrames(s, r, v, n, flags))
    ensures NewTablesTaken(s, MapRun(s, r, v, n, flags))
    decreases n
  {
    if n > 0 {
      var k: nat := n - 1;
      ShorterRun(s, r, v, n, k, flags);
      RunStep(s, r, v, k, flags);
      RunOutcome(s, r, v, k, flags);
      var s1, w, fs := MapRun(s, r, v, k, flags), PageAt(v, k), RunFrames(s, r, v, k, flags);
      PageStillFree(s, s1, r, v, fs, n);
      RoundOutcome(s1, r, w, flags);
      RunThenPage(s, s1, MapNext(s1, r, w, flags), r, v, fs, HeadFrame(s1), n);
      TakenThen(s, s1, MapNext(s1, r, w, flags));
    }
  }

  /** The last round of a run. */
  lemma LastRound(s: Space, r: nat, v: Word, n: nat, k: nat, flags: Word)
    requires CanMapRun(s, r, v, n, flags) && n == k + 1
    ensures CanMapRun(s, r, v, k, flags)
    ensures RunFrames(s, r, v, n, flags) == RunFrames(s, r, v, k, flags) + [HeadFrame(MapRun(s, r, v, k, flags))]
    ensures var s1, s2 := MapRun(s, r, v, k, flags), MapRun(s, r, v, n, flags);
            && s1.frames == s.frames && s2.frames == s.frames && s1.pos < s2.pos && s1.pos < |s.frames|
            && HeadFrame(s1) == s.frames[s1.pos]
            && UserKept(s1, s2, r, PageAt(v, k), flags)
            && (MayMap(s, r, PageAt(v, k), flags) ==> MayMap(s1, r, PageAt(v, k), flags))
  {
    ShorterRun(s, r, v, n, k, flags);
    RunStep(s, r, v, k, flags);
    RunOutcome(s, r, v, k, flags);
    var s1, w := MapRun(s, r, v, k, flags), PageAt(v, k);
    RoundOutcome(s1, r, w, flags);
    HeadFacts(s1);
  }

  /** User access is kept, as long as kernel mappings stay out of user halves. */
  lemma {:induction false} RunKeepsUser(s: Space, r: nat, v: Word, n: nat, flags: Word)
    requires CanMapRun(s, r, v, n, flags) && UserOk(s.mem, s.tables)
    requires forall i :: 0 <= i < n ==> MayMap(s, r, PageAt(v, i), flags)
    ensures UserOk(MapRun(s, r, v, n, flags).mem, MapRun(s, r, v, n, flags).tables)
    decreases n
  {
    if n > 0 {
      var k: nat := n - 1;
      LastRound(s, r, v, n, k, flags);
      RunKeepsUser(s, r, v, k, flags);
    }
  }

  /** The list is consumed from round to round. */
  lemma {:induction false} RunAdvances(s: Space, r: nat, v: Word, n: nat, flags: Word, i: nat)
    requires CanMapRun(s, r, v, n, flags) && i <= n
    ensures CanMapRun(s, r, v, i, flags)
    ensures MapRun(s, r, v, i, flags).pos + (n - i) <= MapRun(s, r, v, n, flags).pos
    ensures MapRun(s, r, v, n, flags).frames == s.frames
    decreases n
  {
    hide *;
    RunKeepsFrames(s, r, v, n, flags);
    if i < n {
      var k: nat := n - 1;
      LastRound(s, r, v, n, k, flags);
      RunAdvances(s, r, v, k, flags, i);
    }
  }

  lemma RunKeepsFrames(s: Space, r: nat, v: Word, n: nat, flags: Word)
    requires CanMapRun(s, r, v, n, flags)
    ensures MapRun(s, r, v, n, flags).frames == s.frames
  {
    hide MapRun, CanMapRun, RunChange;
    RunOutcome(s, r, v, n, flags);
  }

  /** The frame of page i is the one at the head of the list before round i. */
  lemma {:induction false} RunFrameAt(s: Space, r: nat, v: Word, n: nat, flags: Word, i: nat)
    requires CanMapRun(s, r, v, n, flags) && i < n
    ensures MapRun(s, r, v, i, flags).pos < |s.frames|
    ensures RunFrames(s, r, v, n, flags)[i] == s.frames[MapRun(s, r, v, i, flags).pos]
    decreases n
  {
    hide MapNext;
    var k: nat := n - 1;
    LastRound(s, r, v, n, k, flags);
    if i < k {
      RunFrameAt(s, r, v, k, flags, i);
    }
  }

  /** No frame is mapped twice by a run, and each was on the list when the run began. */
  lemma RunFramesDiffer(s: Space, r: nat, v: Word, n: nat, flags: Word, i: nat, j: nat)
    requires CanMapRun(s, r, v, n, flags) && i < j < n
    ensures RunFrames(s, r, v, n, flags)[i] != RunFrames(s, r, v, n, flags)[j]
  {
    RunFrameAt(s, r, v, n, flags, i);
    RunFrameAt(s, r, v, n, flags, j);
    RunAdvances(s, r, v, n, flags, j);
    RunAdvances(s, r, v, j, flags, i);
  }
}
