/** Creating an address space, and the heap that all address spaces share. */
module Spaces {
  import opened Words
  import opened Mmu
  import opened PageTree
  import opened AddressSpace
  import opened Mapping
  import opened Ranges

  // ---- Frames in use for data ----

  /** A frame off the list that is no table. */
  ghost predicate DataFrame(s: Space, f: nat) {
    f < FRAME_LIMIT && f !in s.tables && OffList(s, f)
  }

  /** A data frame stays one, and keeps its contents, while pages are mapped. */
  lemma DataFrameKept(s: Space, s': Space, f: nat)
    requires DataFrame(s, f) && Extends(s, s') && NewTablesTaken(s, s')
    ensures DataFrame(s', f)
    ensures forall i :: Read(s'.mem, f, i) == Read(s.mem, f, i)
  {
  }

  /** A frame just taken is a zeroed data frame. */
  lemma TakenIsData(s: Space)
    requires BootInv(s) && s.pos < |s.frames|
    ensures DataFrame(Popped(s), HeadFrame(s)) && ZeroFrame(Popped(s).mem, HeadFrame(s)) && HeadFrame(s) > 0
  {
    HeadFacts(s);
    PopKeepsBoot(s);
  }

  /** Writing to a data frame disturbs nothing else. */
  lemma DataWrite(s: Space, f: nat, i: nat, w: Word)
    requires Inv(s) && DataFrame(s, f)
    ensures var s' := s.(mem := Write(s.mem, f, i, w));
            && Inv(s') && DataFrame(s', f) && SameTables(s.mem, s'.mem, s.tables)
            && (UserOk(s.mem, s.tables) ==> UserOk(s'.mem, s.tables))
  {
    hide Translate;
    var s' := s.(mem := Write(s.mem, f, i, w));
    SameTree(s.mem, s'.mem, s.tables, s.kroot);
    forall j | s.pos <= j < |s.frames|
      ensures NodeStored(s', j)
      ensures FreeFrame(s', j) && ZeroFrame(s'.mem, s'.frames[j])
    {
      DataWriteNode(s, f, i, w, j);
      assert FreeFrame(s, j);
      assert ZeroFrame(s.mem, s.frames[j]);
      assert forall n :: 0 <= n < SLOTS ==> Read(s'.mem, s.frames[j], n) == Read(s.mem, s.frames[j], n);
    }
    SameWindow(s, s');
  }

  lemma DataWriteNode(s: Space, f: nat, i: nat, w: Word, j: nat)
    requires ListOk(s) && s.pos <= j < |s.frames| && !ListFrame(s, f)
    ensures NodeStored(s.(mem := Write(s.mem, f, i, w)), j)
  {
    assert NodeStored(s, j);
    var b := NodeAddress(s, j);
    assert ListFrame(s, b / 4096) && ListFrame(s, (b + 16) / 4096);
  }

  // ---- A new PML4 ----

  /** Frame p made a PML4: the shared entry copied, then the self-reference written. */
  function AddSpace(s: Space, p: nat, flags: Word): Space
    requires Flags(flags) && p < FRAME_LIMIT
  {
    var m1 := Write(s.mem, p, KERNEL_HALF, Read(s.mem, s.kroot, KERNEL_HALF));
    s.(mem := Write(m1, p, SELF, Entry(p, flags)), tables := s.tables[p := RootNode(p, flags == PAGE_USER)])
  }

  /** The new space maps the shared half as the kernel does and nothing else; no page of any
      other space moves. */
  ghost predicate SpaceAdded(s: Space, s': Space, p: nat, user: bool) {
    && s'.kroot == s.kroot && s'.lo == s.lo && s'.hi == s.hi && s'.base == s.base && s'.frames == s.frames
       && s'.pos == s.pos
    && s'.tables == s.tables[p := RootNode(p, user)]
    && Read(s'.mem, s.kroot, KERNEL_HALF) == Read(s.mem, s.kroot, KERNEL_HALF)
    && (forall f, i :: f != p ==> Read(s'.mem, f, i) == Read(s.mem, f, i))
    && (forall q, u: Trail {:trigger Follow(s'.mem, q, u)} ::
          IsRoot(s.tables, q) && u.Legal() && u.Depth() <= 4 ==> Follow(s'.mem, q, u) == Follow(s.mem, q, u))
    && (forall u: Trail {:trigger Follow(s'.mem, p, u)} ::
          u.Legal() && u.Depth() == 4 && u.Direct() ==>
          Follow(s'.mem, p, u) == if u.Head() == KERNEL_HALF then Follow(s.mem, s.kroot, u) else None)
  }

  lemma AddSpaceOutcome(s: Space, p: nat, flags: Word)
    requires Inv(s) && DataFrame(s, p) && ZeroFrame(s.mem, p) && Flags(flags)
    ensures Inv(AddSpace(s, p, flags))
    ensures SpaceAdded(s, AddSpace(s, p, flags), p, flags == PAGE_USER)
    ensures UserOk(s.mem, s.tables) ==> UserOk(AddSpace(s, p, flags).mem, AddSpace(s, p, flags).tables)
  {
    hide Translate;
    var w := Read(s.mem, s.kroot, KERNEL_HALF);
    var s1 := s.(mem := Write(s.mem, p, KERNEL_HALF, w));
    DataWrite(s, p, KERNEL_HALF, w);
    DataWrite(s1, p, SELF, Entry(p, flags));
    var s2 := s1.(mem := Write(s1.mem, p, SELF, Entry(p, flags)));
    var s' := AddSpace(s, p, flags);
    assert FreshRoot(s2.mem, s.kroot, p) by {
      assert forall i :: 0 <= i < SELF ==> Read(s2.mem, p, i) == Read(s.mem, p, i);
    }
    AddRoot(s2.mem, s2.tables, s.kroot, p, flags == PAGE_USER);
    forall q, u: Trail | IsRoot(s.tables, q) && u.Legal() && u.Depth() <= 4
      ensures Follow(s'.mem, q, u) == Follow(s.mem, q, u)
    {
      SameFollow(s.mem, s2.mem, s.tables, s.kroot, q, u);
    }
    forall u: Trail | u.Legal() && u.Depth() == 4 && u.Direct()
      ensures Follow(s'.mem, p, u) == if u.Head() == KERNEL_HALF then Follow(s.mem, s.kroot, u) else None
    {
      NewSpace(s2.mem, s.kroot, p, u);
    }
    RootAdded(s2, p, flags == PAGE_USER);
  }

  /** The invariant does not depend on a table more, as long as the forest is in order. */
  lemma RootAdded(s: Space, p: nat, user: bool)
    requires Inv(s) && DataFrame(s, p) && TreeOk(s.mem, s.tables[p := RootNode(p, user)], s.kroot)
    ensures Inv(s.(tables := s.tables[p := RootNode(p, user)]))
  {
    var s' := s.(tables := s.tables[p := RootNode(p, user)]);
    forall j | s.pos <= j < |s.frames|
      ensures NodeStored(s', j)
      ensures FreeFrame(s', j) && ZeroFrame(s'.mem, s'.frames[j])
    {
      assert NodeStored(s, j) && FreeFrame(s, j) && ZeroFrame(s.mem, s.frames[j]);
    }
    forall f | s'.lo <= f < s'.hi
      ensures InWindow(s', f)
    {
      assert InWindow(s, f);
    }
  }

  // ---- The heap ----

  /** The page of w is mapped by nobody. */
  predicate Unmapped(s: Space, w: Word) {
    Follow(s.mem, s.kroot, Page(w)) == None
  }

  /** The heap grows from a page boundary in the shared half, with nothing mapped above it. */
  ghost predicate HeapOk(s: Space, top: Word) {
    && top % 4096 == 0 && top >= KERNBASE
    && forall w: Word {:trigger Unmapped(s, w)} :: w >= top ==> Unmapped(s, w)
  }

  /** In the shared half the free pages are free for everybody. */
  lemma HeapPagesFree(s: Space, r: nat, top: Word, n: nat)
    requires Inv(s) && IsRoot(s.tables, r) && HeapOk(s, top) && top + 4096 * n < WORD_LIMIT
    ensures GoodRun(top, n)
    ensures forall i :: 0 <= i < n ==> Follow(s.mem, r, Page(PageAt(top, i))) == None
  {
    hide Translate;
    forall i | 0 <= i < n
      ensures Canonical(PageAt(top, i)) && I4(PageAt(top, i)) == KERNEL_HALF
      ensures Follow(s.mem, r, Page(PageAt(top, i))) == None
    {
      var w := PageAt(top, i);
      KernelAddress(w);
      assert Unmapped(s, w);
      SharedHalf(s.mem, s.tables, s.kroot, r, Page(w));
    }
  }

  /** After a run at its top the heap goes on above it. */
  lemma HeapGrows(s: Space, s': Space, r: nat, top: Word, fs: seq<nat>)
    requires Inv(s) && HeapOk(s, top) && RunMapped(s, s', r, top, fs) && IsRoot(s.tables, r)
    requires top + 4096 * |fs| < WORD_LIMIT
    ensures HeapOk(s', top + 4096 * |fs|)
  {
    hide Translate;
    HeapPagesFree(s, r, top, |fs|);
    forall w: Word | w >= top + 4096 * |fs|
      ensures Unmapped(s', w)
    {
      KernelAddress(w);
      assert Unmapped(s, w);
      BeyondRun(top, fs, w);
      assert RunChange(s.mem, s'.mem, r, top, fs, s.kroot, Page(w));
    }
  }

  lemma BeyondRun(top: Word, fs: seq<nat>, w: Word)
    requires GoodRun(top, |fs|) && Canonical(w) && w >= top + 4096 * |fs| && top % 4096 == 0
    ensures Placed(top, fs, Page(w)) == None
  {
    forall i | 0 <= i < |fs|
      ensures Page(w) != Page(PageAt(top, i))
    {
      PageIdentifies(w, PageAt(top, i));
      assert PageAt(top, i) / 4096 == top / 4096 + i;
      assert w / 4096 >= top / 4096 + |fs|;
    }
    PlacedAt(top, fs, |fs|, Page(w));
  }
}
