/** sys/paging.c after boot: page_walk and page_walk_user, run through the MMU on the memory
    that they change, and the frame allocator that reads its list through the same MMU. */
module Paging {
  import opened Words
  import opened Mmu
  import opened PageTree
  import opened Window
  import opened AddressSpace
  import opened Mapping
  import opened Entries

  const ALLOCATED: Word := 1

  /** is_valid_page: present and writable. */
  predicate IsValidPage(e: Word) {
    And(e, 3) == 3
  }

  lemma ValidIsPresent(e: Word)
    requires GoodEntry(e)
    ensures IsValidPage(e) <==> Present(e)
  {
    AndThree(e);
  }

  /** The C expression p | flags on the address of a frame. */
  lemma FlagsJoined(f: nat, flags: Word)
    requires f < FRAME_LIMIT && Flags(flags)
    ensures Or(4096 * f, flags) == Entry(f, flags)
  {
    OrFlags(f, flags);
    OrCommutes(4096 * f, flags);
  }

  class Kernel {
    var mem: Memory
    /** The CR3 register: physical address of the PML4 in use. */
    var cr3: Word
    var freeListHeadKmalloc: Word
    var topVirtualAddress: Word
    /** Kernel address of the kernel's PML4. */
    var kernelPml4: Word

    // Used while booting: physical addresses of the first list node and of the head of the list.
    var freeList: Word
    var freeListHead: Word
    var freeListTotalPages: nat
    var freeListPageLength: nat

    // Which frames play which part.
    ghost var tables: Tables
    ghost var kroot: nat
    ghost var lo: nat
    ghost var hi: nat
    ghost var base: nat
    ghost var frames: seq<nat>
    ghost var pos: nat

    ghost function View(): Space
      reads this
    {
      Space(mem, tables, kroot, lo, hi, base, frames, pos)
    }

    /** The frame of the PML4 in use. */
    function Pml4(): nat
      reads this
    {
      Target(cr3)
    }

    ghost predicate Valid()
      reads this
    {
      && Inv(View())
      && IsRoot(tables, Pml4())
      && freeListHeadKmalloc == KERNBASE + (if pos < |frames| then NodeAddress(View(), pos) else 0)
      && kernelPml4 == KERNBASE + 4096 * kroot
    }

    /** Whether the MMU lets the processor access the aligned word at v. */
    predicate Mapped(v: Word)
      reads this
    {
      v % 8 == 0 && Translate(mem, Pml4(), v).Some?
    }

    function Load(v: Word): Word
      reads this
      requires Mapped(v)
    {
      ReadPhys(mem, Translate(mem, Pml4(), v).value)
    }

    method Store(v: Word, w: Word)
      requires Mapped(v)
      modifies this`mem
      ensures mem == WritePhys(old(mem), old(Translate(mem, Pml4(), v).value), w)
    {
      var a := Translate(mem, Pml4(), v).value;
      mem := WritePhys(mem, a, w);
    }

    /** get_next_free_page_kmalloc: takes the head of the list, reading the node through the
        kernel window. */
    method GetNextFreePageKmalloc() returns (p: Word)
      requires freeListHeadKmalloc == 0 || (Valid() && pos < |frames|)
      modifies this`mem, this`freeListHeadKmalloc, this`pos
      ensures old(freeListHeadKmalloc) == 0 ==> p == 0 && mem == old(mem) && freeListHeadKmalloc == 0 && pos == old(pos)
      ensures old(freeListHeadKmalloc) != 0 ==>
                Valid() && View() == Popped(old(View())) && p == 4096 * HeadFrame(old(View())) && p != 0
    {
      hide Inv, Translate;
      var temp := freeListHeadKmalloc;
      if freeListHeadKmalloc == 0 {
        return 0;
      }
      ghost var s, r, a := View(), Pml4(), NodeAddress(View(), pos);
      PopReads(s, r, a, temp);
      Store(temp + 8, ALLOCATED);
      assert mem == Popped(s).mem && Pml4() == r;
      freeListHeadKmalloc := KERNBASE + Load(temp);
      assert freeListHeadKmalloc == KERNBASE + NextField(s, s.pos);
      p := Load(temp + 16);
      pos := pos + 1;
      assert View() == Popped(s);
    }

    /** A store whose address leads to word i of frame f. */
    method StoreSlot(v: Word, w: Word, ghost f: nat, ghost i: nat)
      requires Mapped(v) && Translate(mem, Pml4(), v) == Some(4096 * f + 8 * i) && i < SLOTS
      modifies this`mem
      ensures mem == Write(old(mem), f, i, w)
    {
      hide Translate;
      SlotAddress(f, i);
      Store(v, w);
    }

    /** One C assignment `*rec = e` through a window address. */
    method SetEntry(a: Word, e: Word, ghost f: nat, ghost i: nat)
      requires Mapped(a) && Translate(mem, Pml4(), a) == Some(4096 * f + 8 * i) && i < SLOTS
      modifies this`mem, this`tables
      ensures View() == Put(old(View()), f, i, e)
    {
      StoreSlot(a, e, f, i);
      tables := if f in tables then TablesAfter(tables, kroot, f, i, e) else tables;
    }

    /** The two C statements that link a fresh table: take a frame, store it with its flags. */
    method LinkTable(a: Word, flags: Word, v: Word, ghost up: Trail, ghost i: nat)
      requires Valid() && Flags(flags) && pos < |frames| && Gap(View(), Pml4(), v, up, i)
      requires a % 8 == 0 && Translate(mem, Pml4(), a) == EntryAddress(mem, Pml4(), up, i)
      modifies this`mem, this`tables, this`freeListHeadKmalloc, this`pos
      ensures Valid()
      ensures View() == Link(old(View()), Follow(old(mem), Pml4(), up).value, i, flags)
    {
      hide Or, Inv, Translate;
      ghost var s, r, f := View(), Pml4(), Follow(mem, Pml4(), up).value;
      assert Translate(mem, r, a) == Some(4096 * f + 8 * i);
      OnPathFacts(v, up, i);
      LinkKeeps(s, r, flags, v, up, i);
      PopTranslate(s, r, a, up, i);
      var physicalPage := GetNextFreePageKmalloc();
      FlagsJoined(HeadFrame(s), flags);
      assert Translate(mem, r, a) == Some(4096 * f + 8 * i);
      SetEntry(a, Or(physicalPage, flags), f, i);
    }

    // The statements of page_walk's branches; each branch ends with those of the next.

    /** *pte_rec = p | flags. */
    method FillPt(pAddr: Word, vAddr: Word, flags: Word, ghost p: nat, pteRec: Word)
      requires Valid() && CanMap(View(), Pml4(), vAddr, p, flags) && pAddr == 4096 * p
      requires WindowEntry(View(), Pml4(), pteRec, Dir1(vAddr), I1(vAddr))
      requires Follow(mem, Pml4(), Dir1(vAddr)).Some? && Follow(mem, Pml4(), Page(vAddr)) == None
      modifies this`mem, this`tables, this`freeListHeadKmalloc, this`pos
      ensures Valid()
      ensures View() == MapPt(old(View()), Follow(old(mem), Pml4(), Dir1(vAddr)).value, vAddr, p, flags)
    {
      hide Or, Inv, Translate, UserKept;
      ghost var s, r := View(), Pml4();
      ghost var f := Follow(mem, r, Dir1(vAddr)).value;
      FlagsJoined(p, flags);
      LeafKeeps(s, r, vAddr, p, flags);
      assert Translate(mem, r, pteRec) == Some(4096 * f + 8 * I1(vAddr));
      SetEntry(pteRec, Or(pAddr, flags), f, I1(vAddr));
    }

    /** *pgd_rec = frame | flags; *pte_rec = p | flags. */
    method FillPd(pAddr: Word, vAddr: Word, flags: Word, ghost p: nat, pgdRec: Word, pteRec: Word)
      requires Valid() && CanMap(View(), Pml4(), vAddr, p, flags) && pAddr == 4096 * p
      requires pgdRec == PgdRec(vAddr) && pteRec == PteRec(vAddr)
      requires Follow(mem, Pml4(), Dir2(vAddr)).Some? && Follow(mem, Pml4(), Dir1(vAddr)) == None
      modifies this`mem, this`tables, this`freeListHeadKmalloc, this`pos
      ensures Valid()
      ensures View() == MapPd(old(View()), Follow(old(mem), Pml4(), Dir2(vAddr)).value, vAddr, p, flags)
    {
      hide Inv, Translate, MapPt, Link, Linked, UserKept, PteRec, PgdRec;
      ghost var s, r := View(), Pml4();
      WindowOfPgd(s, r, vAddr);
      LinkKeeps(s, r, flags, vAddr, Dir2(vAddr), I2(vAddr));
      LinkTable(pgdRec, flags, vAddr, Dir2(vAddr), I2(vAddr));
      assert Follow(mem, r, Page(vAddr)) == None;
      WindowOfPte(View(), r, vAddr);
      FillPt(pAddr, vAddr, flags, p, pteRec);
    }

    /** *pdpe_rec = frame | flags, and so on down. */
    method FillPdpt(pAddr: Word, vAddr: Word, flags: Word, ghost p: nat, pdpeRec: Word, pgdRec: Word, pteRec: Word)
      requires Valid() && CanMap(View(), Pml4(), vAddr, p, flags) && pAddr == 4096 * p
      requires pdpeRec == PdpeRec(vAddr) && pgdRec == PgdRec(vAddr) && pteRec == PteRec(vAddr)
      requires Follow(mem, Pml4(), Dir3(vAddr)).Some? && Follow(mem, Pml4(), Dir2(vAddr)) == None
      modifies this`mem, this`tables, this`freeListHeadKmalloc, this`pos
      ensures Valid()
      ensures View() == MapPdpt(old(View()), Follow(old(mem), Pml4(), Dir3(vAddr)).value, vAddr, p, flags)
    {
      hide Inv, Translate, MapPd, Link, Linked, UserKept, PteRec, PgdRec, PdpeRec;
      ghost var s, r := View(), Pml4();
      WindowOfPdpe(s, r, vAddr);
      LinkKeeps(s, r, flags, vAddr, Dir3(vAddr), I3(vAddr));
      LinkTable(pdpeRec, flags, vAddr, Dir3(vAddr), I3(vAddr));
      assert Follow(mem, r, Dir1(vAddr)) == None;
      FillPd(pAddr, vAddr, flags, p, pgdRec, pteRec);
    }

    /** *pml4_rec = frame | flags, and so on down. */
    method FillPml4(pAddr: Word, vAddr: Word, flags: Word, ghost p: nat, pml4Rec: Word, pdpeRec: Word, pgdRec: Word,
                    pteRec: Word)
      requires Valid() && CanMap(View(), Pml4(), vAddr, p, flags) && pAddr == 4096 * p
      requires pml4Rec == Pml4Rec(vAddr) && pdpeRec == PdpeRec(vAddr) && pgdRec == PgdRec(vAddr)
               && pteRec == PteRec(vAddr)
      requires Follow(mem, Pml4(), Dir3(vAddr)) == None
      modifies this`mem, this`tables, this`freeListHeadKmalloc, this`pos
      ensures Valid()
      ensures View() == MapDirect(old(View()), Pml4(), vAddr, p, flags)
    {
      hide Inv, Translate, MapPdpt, Link, Linked, UserKept, PteRec, PgdRec, PdpeRec, Pml4Rec;
      ghost var s, r := View(), Pml4();
      WindowOfPml4(s, r, vAddr);
      LinkKeeps(s, r, flags, vAddr, Root, I4(vAddr));
      LinkTable(pml4Rec, flags, vAddr, Root, I4(vAddr));
      assert Follow(mem, r, Dir3(vAddr)) == Some(HeadFrame(s));
      assert Follow(mem, r, Dir2(vAddr)) == None;
      FillPdpt(pAddr, vAddr, flags, p, pdpeRec, pgdRec, pteRec);
    }

    /** page_walk and page_walk_user differ only in the flags they store. */
    method WalkAndMap(pAddr: Word, vAddr: Word, flags: Word) returns (result: nat)
      requires Valid() && CanMap(View(), Pml4(), vAddr, pAddr / 4096, flags) && pAddr % 4096 == 0
      modifies this`mem, this`tables, this`freeListHeadKmalloc, this`pos
      ensures Valid()
      ensures Follow(old(mem), Pml4(), Page(vAddr)).Some? ==>
                result == 0 && View() == old(View()) && freeListHeadKmalloc == old(freeListHeadKmalloc)
      ensures Follow(old(mem), Pml4(), Page(vAddr)) == None ==>
                result == 1 && View() == MapDirect(old(View()), Pml4(), vAddr, pAddr / 4096, flags)
      ensures result == 1 ==>
                Outcome(old(View()), View(), Pml4(), vAddr, pAddr / 4096, flags, old(Missing(mem, Pml4(), vAddr)))
      ensures result == 1 ==>
                EntriesMade(old(View()), View(), flags) && LeafEntry(mem, Pml4(), vAddr) == pAddr + flags
    {
      hide And, Or, Shr, Inv, Translate, MapPt, Outcome, EntriesMade, LeafEntry;
      ghost var s, r := View(), Pml4();
      ghost var p := pAddr / 4096;
      MapDirectOutcome(s, r, vAddr, p, flags);
      if Follow(mem, r, Page(vAddr)) == None { MapDirectMade(s, r, vAddr, p, flags); }

      var pml4Part := Shr(And(vAddr, PML4_OFFSET), 36);
      var pdpePart := Shr(And(vAddr, PDPE_OFFSET), 27);
      var pgdPart := Shr(And(vAddr, PGD_OFFSET), 18);
      var ptePart := Shr(And(vAddr, PTE_OFFSET), 9);
      WindowOfPml4(s, r, vAddr);
      WindowOfPdpe(s, r, vAddr);
      WindowOfPgd(s, r, vAddr);
      WindowOfPte(s, r, vAddr);
      var pml4Rec := Or(pml4Part, PML4_PT_WALK);
      var pdpeRec := Or(pdpePart, PDPE_PT_WALK);
      var pgdRec := Or(pgdPart, PGD_PT_WALK);
      var pteRec := Or(ptePart, PTE_PT_WALK);

      if IsValidPage(Load(pml4Rec)) {
        if IsValidPage(Load(pdpeRec)) {
          if IsValidPage(Load(pgdRec)) {
            if IsValidPage(Load(pteRec)) {
              return 0;
            } else {
              FillPt(pAddr, vAddr, flags, p, pteRec);
              return 1;
            }
          } else {
            FillPd(pAddr, vAddr, flags, p, pgdRec, pteRec);
            return 1;
          }
        } else {
          FillPdpt(pAddr, vAddr, flags, p, pdpeRec, pgdRec, pteRec);
          return 1;
        }
      } else {
        FillPml4(pAddr, vAddr, flags, p, pml4Rec, pdpeRec, pgdRec, pteRec);
        return 1;
      }
    }
  }

  /** The kernel never sees the list empty: KERNBASE is added to a null link, so after the last frame
      the head is KERNBASE and the test for null fails. It is null for no list at all. */
  lemma ExhaustionUnseen(k: Kernel)
    requires k.Valid()
    ensures k.freeListHeadKmalloc != 0
    ensures k.freeListHeadKmalloc == KERNBASE <==> k.pos == |k.frames| || NodeAddress(k.View(), k.pos) == 0
  {
  }

  /** A window address reaches entry i of the table at path t, and the word there is valid exactly
      when the path goes on. */
  ghost predicate WindowEntry(s: Space, r: nat, rec: nat, t: Trail, i: nat) {
    && rec < WORD_LIMIT && rec % 8 == 0
    && Translate(s.mem, r, rec) == EntryAddress(s.mem, r, t, i)
    && (Follow(s.mem, r, t).Some? ==>
          (IsValidPage(ReadPhys(s.mem, EntryAddress(s.mem, r, t, i).value)) <==> Follow(s.mem, r, Down(t, i)).Some?))
  }

  lemma WindowOfEntry(s: Space, r: nat, v: Word, rec: nat, t: Trail, i: nat)
    requires Inv(s) && IsRoot(s.tables, r) && OnPath(v, t, i) && I4(v) != SELF
    requires rec < WORD_LIMIT && rec % 8 == 0 && Translate(s.mem, r, rec) == EntryAddress(s.mem, r, t, i)
    ensures WindowEntry(s, r, rec, t, i)
  {
    OnPathFacts(v, t, i);
    if Follow(s.mem, r, t).Some? {
      var f := Follow(s.mem, r, t).value;
      FollowArrives(s.mem, s.tables, s.kroot, r, t);
      assert EntryOk(s.mem, s.tables, s.kroot, f, i);
      SlotAddress(f, i);
      ValidIsPresent(Read(s.mem, f, i));
    }
  }

  lemma SelfMapOf(s: Space, r: nat)
    requires Inv(s) && IsRoot(s.tables, r)
    ensures SelfMapped(s.mem, r)
  {
    assert EntryOk(s.mem, s.tables, s.kroot, r, SELF);
  }

  lemma WindowOfPml4(s: Space, r: nat, v: Word)
    requires Inv(s) && IsRoot(s.tables, r) && I4(v) != SELF
    ensures WindowEntry(s, r, Pml4Rec(v), Root, I4(v))
  {
    SelfMapOf(s, r);
    WindowResolves(s.mem, r, v);
    WindowOfEntry(s, r, v, Pml4Rec(v), Root, I4(v));
  }

  lemma WindowOfPdpe(s: Space, r: nat, v: Word)
    requires Inv(s) && IsRoot(s.tables, r) && I4(v) != SELF
    ensures WindowEntry(s, r, PdpeRec(v), Dir3(v), I3(v))
  {
    SelfMapOf(s, r);
    WindowResolves(s.mem, r, v);
    WindowOfEntry(s, r, v, PdpeRec(v), Dir3(v), I3(v));
  }

  lemma WindowOfPgd(s: Space, r: nat, v: Word)
    requires Inv(s) && IsRoot(s.tables, r) && I4(v) != SELF
    ensures WindowEntry(s, r, PgdRec(v), Dir2(v), I2(v))
  {
    SelfMapOf(s, r);
    WindowResolves(s.mem, r, v);
    WindowOfEntry(s, r, v, PgdRec(v), Dir2(v), I2(v));
  }

  lemma WindowOfPte(s: Space, r: nat, v: Word)
    requires Inv(s) && IsRoot(s.tables, r) && I4(v) != SELF
    ensures WindowEntry(s, r, PteRec(v), Dir1(v), I1(v))
  {
    SelfMapOf(s, r);
    WindowResolves(s.mem, r, v);
    WindowOfEntry(s, r, v, PteRec(v), Dir1(v), I1(v));
  }

  lemma SlotAddress(f: nat, i: nat)
    requires i < SLOTS
    ensures (4096 * f + 8 * i) / 4096 == f && (4096 * f + 8 * i) % 4096 / 8 == i && (4096 * f + 8 * i) % 8 == 0
  {
    DivModUnique(4096 * f + 8 * i, 4096, f, 8 * i);
  }

  lemma KernAligned(v: nat, a: nat)
    requires v == KERNBASE + a && a % 8 == 0
    ensures v % 8 == 0 && (v + 8) % 8 == 0 && (v + 16) % 8 == 0
  {
    assert v == 8 * (0x1fff_ffff_f000_0000 + a / 8);
  }

  /** The three words of a list node are mapped, in every address space, at KERNBASE plus their
      physical address. */
  lemma NodeInWindow(s: Space, r: nat, j: nat, a: nat, v: nat)
    requires Inv(s) && IsRoot(s.tables, r) && j < |s.frames|
    requires a == NodeAddress(s, j) && v == KERNBASE + a
    ensures v + 16 < WORD_LIMIT && v % 8 == 0 && (v + 8) % 8 == 0 && (v + 16) % 8 == 0
    ensures Translate(s.mem, r, v) == Some(a)
    ensures Translate(s.mem, r, v + 8) == Some(a + 8)
    ensures Translate(s.mem, r, v + 16) == Some(a + 16)
  {
    NodeFields(s.base, j, j);
    KernAligned(v, a);
    assert a + NODE <= NodeAddress(s, |s.frames|);
    WindowTranslates(s, r, a, v);
    WindowTranslates(s, r, a + 8, v + 8);
    WindowTranslates(s, r, a + 16, v + 16);
  }

  /** What taking the head node reads and writes. */
  lemma PopReads(s: Space, r: nat, a: nat, v: nat)
    requires Inv(s) && IsRoot(s.tables, r) && s.pos < |s.frames|
    requires a == NodeAddress(s, s.pos) && v == KERNBASE + a
    ensures v + 16 < WORD_LIMIT && v % 8 == 0 && (v + 8) % 8 == 0 && (v + 16) % 8 == 0
    ensures Translate(s.mem, r, v + 8) == Some(a + 8)
    ensures Translate(Popped(s).mem, r, v) == Some(a)
    ensures Translate(Popped(s).mem, r, v + 16) == Some(a + 16)
    ensures ReadPhys(Popped(s).mem, a) == NextField(s, s.pos)
    ensures ReadPhys(Popped(s).mem, a + 16) == 4096 * HeadFrame(s)
    ensures KERNBASE + NextField(s, s.pos) < WORD_LIMIT
    ensures Inv(Popped(s)) && HeadFrame(s) > 0
  {
    hide Translate;
    NodeInWindow(s, r, s.pos, a, v);
    HeadFacts(s);
    PopKeeps(s);
    NodeInWindow(Popped(s), r, s.pos, a, v);
    PopNode(s, s.pos);
    var s' := Popped(s);
    assert NodeStored(s', s.pos) && NodeAddress(s', s.pos) == a && NextField(s', s.pos) == NextField(s, s.pos);
    if s.pos + 1 < |s.frames| {
      NodeInWindow(s, r, s.pos + 1, NodeAddress(s, s.pos + 1), KERNBASE + NodeAddress(s, s.pos + 1));
    }
  }

  /** Taking a frame changes no translation. */
  lemma PopTranslate(s: Space, r: nat, a: Word, up: Trail, i: nat)
    requires Inv(s) && IsRoot(s.tables, r) && s.pos < |s.frames| && up.Legal() && up.Depth() <= 3
    ensures Translate(Popped(s).mem, r, a) == Translate(s.mem, r, a)
    ensures EntryAddress(Popped(s).mem, r, up, i) == EntryAddress(s.mem, r, up, i)
  {
    hide Page;
    var t, m' := Page(a), Popped(s).mem;
    assert t.Legal() && t.Depth() == 4;
    PopKeepsBoot(s);
    SameFollow(s.mem, m', s.tables, s.kroot, r, t);
    SameFollow(s.mem, m', s.tables, s.kroot, r, up);
    assert Follow(m', r, Page(a)) == Follow(s.mem, r, Page(a));
  }
}
