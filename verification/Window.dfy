/** The recursive window: with slot 510 of a PML4 referring to the PML4 itself, four computed
    addresses make the MMU land on the four entries that a walk of v reads. */
module Window {
  import opened Words
  import opened Mmu

  const PML4_PT_WALK: Word := 0xffff_ff7f_bfdf_e000
  const PDPE_PT_WALK: Word := 0xffff_ff7f_bfc0_0000
  const PGD_PT_WALK: Word := 0xffff_ff7f_8000_0000
  const PTE_PT_WALK: Word := 0xffff_ff00_0000_0000

  const PML4_OFFSET: Word := 0x0000_ff80_0000_0000
  const PDPE_OFFSET: Word := 0x0000_ffff_c000_0000
  const PGD_OFFSET: Word := 0x0000_ffff_ffe0_0000
  const PTE_OFFSET: Word := 0x0000_ffff_ffff_f000

  // The four addresses as page_walk computes them.

  function Pml4Rec(v: Word): nat { Or(Shr(And(v, PML4_OFFSET), 36), PML4_PT_WALK) }
  function PdpeRec(v: Word): nat { Or(Shr(And(v, PDPE_OFFSET), 27), PDPE_PT_WALK) }
  function PgdRec(v: Word): nat { Or(Shr(And(v, PGD_OFFSET), 18), PGD_PT_WALK) }
  function PteRec(v: Word): nat { Or(Shr(And(v, PTE_OFFSET), 9), PTE_PT_WALK) }

  /** Masking out the j digits from digit k on and shifting them down to digit 3 gives eight
      times that field; joining it to a base without these digits adds it. */
  lemma FieldAddress(v: Word, k: nat, j: nat, base: nat, pk: nat, pj: nat, mask: nat, walk: nat)
    requires k >= 3 && pk == Pow2(k) && pj == Pow2(j) && mask == (pj - 1) * pk && walk == base * (8 * pj)
    ensures Or(Shr(And(v, mask), k - 3), walk) == walk + 8 * (v / pk % pj)
  {
    var field := v / pk % pj;
    AndField(v, k, j);
    PowSum(3, k - 3);
    PowSum(3, j);
    assert Pow2(3) == 8;
    Factor(field, Pow2(k - 3));
    ShrExact(8 * field, k - 3);
    OrDisjoint(8 * field, base, j + 3);
  }

  lemma Factor(a: nat, m: nat)
    ensures a * (8 * m) == 8 * a * m
  {
  }

  lemma Powers()
    ensures Pow2(9) == 0x200 && Pow2(18) == 0x4_0000 && Pow2(27) == 0x800_0000 && Pow2(36) == 0x10_0000_0000
    ensures Pow2(12) == 0x1000 && Pow2(21) == 0x20_0000 && Pow2(30) == 0x4000_0000 && Pow2(39) == 0x80_0000_0000
  {
    assert Pow2(9) == 0x200 && Pow2(3) == 8;
    PowSum(9, 9);
    PowSum(18, 9);
    PowSum(27, 9);
    PowSum(9, 3);
    PowSum(18, 3);
    PowSum(27, 3);
    PowSum(36, 3);
  }

  lemma {:induction false} PowSum(a: nat, b: nat)
    ensures Pow2(a + b) == Pow2(a) * Pow2(b)
  {
    if b > 0 {
      PowSum(a, b - 1);
      DoubleProduct(Pow2(a), Pow2(b - 1));
    }
  }

  lemma Pml4RecClosed(v: Word)
    ensures Pml4Rec(v) == PML4_PT_WALK + 8 * (v / 0x80_0000_0000 % 0x200)
  {
    Powers();
    FieldAddress(v, 39, 9, PML4_PT_WALK / 0x1000, 0x80_0000_0000, 0x200, PML4_OFFSET, PML4_PT_WALK);
  }

  lemma PdpeRecClosed(v: Word)
    ensures PdpeRec(v) == PDPE_PT_WALK + 8 * (v / 0x4000_0000 % 0x4_0000)
  {
    Powers();
    FieldAddress(v, 30, 18, PDPE_PT_WALK / 0x20_0000, 0x4000_0000, 0x4_0000, PDPE_OFFSET, PDPE_PT_WALK);
  }

  lemma PgdRecClosed(v: Word)
    ensures PgdRec(v) == PGD_PT_WALK + 8 * (v / 0x20_0000 % 0x800_0000)
  {
    Powers();
    FieldAddress(v, 21, 27, PGD_PT_WALK / 0x4000_0000, 0x20_0000, 0x800_0000, PGD_OFFSET, PGD_PT_WALK);
  }

  lemma PteRecClosed(v: Word)
    ensures PteRec(v) == PTE_PT_WALK + 8 * (v / 0x1000 % 0x10_0000_0000)
  {
    Powers();
    FieldAddress(v, 12, 36, PTE_PT_WALK / 0x80_0000_0000, 0x1000, 0x10_0000_0000, PTE_OFFSET, PTE_PT_WALK);
  }

  lemma Multiple8(w: nat, i: nat)
    requires w % 4096 == 8 * i
    ensures w % 8 == 0
  {
    assert w == 8 * (512 * (w / 4096) + i);
  }

  /** A sign-extended address put together from its indices has these indices. */
  lemma Assembled(w: nat, i4: nat, i3: nat, i2: nat, i1: nat, offset: nat)
    requires 256 <= i4 < SLOTS && i3 < SLOTS && i2 < SLOTS && i1 < SLOTS && offset < PAGESIZE
    requires w == 0xffff_0000_0000_0000 + 0x80_0000_0000 * i4 + 0x4000_0000 * i3 + 0x20_0000 * i2 + 0x1000 * i1 + offset
    ensures w < WORD_LIMIT && Canonical(w) && w % 4096 == offset
    ensures Page(w) == Down(Down(Down(Down(Root, i4), i3), i2), i1)
  {
    var h4: nat := 0xffff;
    var h3, h2: nat := 512 * h4 + i4, 0x4_0000 * h4 + 512 * i4 + i3;
    var h1: nat := 512 * h2 + i2;
    IndexOf(w, 0x80_0000_0000, h4, i4, 0x4000_0000 * i3 + 0x20_0000 * i2 + 0x1000 * i1 + offset);
    IndexOf(w, 0x4000_0000, h3, i3, 0x20_0000 * i2 + 0x1000 * i1 + offset);
    IndexOf(w, 0x20_0000, h2, i2, 0x1000 * i1 + offset);
    IndexOf(w, 0x1000, h1, i1, offset);
    DivModUnique(w, 0x1000, 512 * h1 + i1, offset);
  }

  /** The index field of an address, by its parts. */
  lemma IndexOf(w: nat, d: nat, high: nat, i: nat, rest: nat)
    requires d > 0 && w == (512 * high + i) * d + rest && rest < d && i < 512
    ensures w / d % 512 == i
  {
    DivModUnique(w, d, 512 * high + i, rest);
    DivModUnique(512 * high + i, 512, high, i);
  }

  lemma Pml4RecPath(v: Word)
    ensures Pml4Rec(v) < WORD_LIMIT
    ensures var w: Word := Pml4Rec(v);
            Canonical(w) && Page(w) == Down(Down(Down(Down(Root, SELF), SELF), SELF), SELF) && w % 4096 == 8 * I4(v)
  {
    Pml4RecClosed(v);
    Assembled(Pml4Rec(v), SELF, SELF, SELF, SELF, 8 * I4(v));
  }

  lemma PdpeRecPath(v: Word)
    ensures PdpeRec(v) < WORD_LIMIT
    ensures var w: Word := PdpeRec(v);
            Canonical(w) && Page(w) == Down(Down(Down(Down(Root, SELF), SELF), SELF), I4(v)) && w % 4096 == 8 * I3(v)
  {
    PdpeRecClosed(v);
    DivModSplit(v / 0x4000_0000, 512, 512);
    DivModSplit(v, 0x4000_0000, 512);
    Assembled(PdpeRec(v), SELF, SELF, SELF, I4(v), 8 * I3(v));
  }

  lemma PgdRecPath(v: Word)
    ensures PgdRec(v) < WORD_LIMIT
    ensures var w: Word := PgdRec(v);
            Canonical(w) && Page(w) == Down(Down(Down(Down(Root, SELF), SELF), I4(v)), I3(v)) && w % 4096 == 8 * I2(v)
  {
    PgdRecClosed(v);
    DivModSplit(v / 0x20_0000, 512, 0x4_0000);
    DivModSplit(v, 0x20_0000, 512);
    DivModSplit(v / 0x4000_0000, 512, 512);
    DivModSplit(v, 0x4000_0000, 512);
    Assembled(PgdRec(v), SELF, SELF, I4(v), I3(v), 8 * I2(v));
  }

  lemma PteRecPath(v: Word)
    ensures PteRec(v) < WORD_LIMIT
    ensures var w: Word := PteRec(v);
            Canonical(w) && Page(w) == Down(Down(Down(Down(Root, SELF), I4(v)), I3(v)), I2(v)) && w % 4096 == 8 * I1(v)
  {
    PteRecClosed(v);
    IndexOfPage(v);
    Assembled(PteRec(v), SELF, I4(v), I3(v), I2(v), 8 * I1(v));
  }

  /** Whether slot 510 of PML4 r refers to r itself. */
  predicate SelfMapped(m: Memory, r: nat) {
    Present(Read(m, r, SELF)) && Target(Read(m, r, SELF)) == r
  }

  /** The physical address of entry i of the table at the end of path t. */
  function EntryAddress(m: Memory, r: nat, t: Trail, i: nat): Option<nat> {
    match Follow(m, r, t)
    case None => None
    case Some(f) => Some(4096 * f + 8 * i)
  }

  /** Under the self-reference, the MMU takes the four addresses to the four entries that the
      walk of v reads, and faults exactly where a table on the path is missing. */
  lemma WindowResolves(m: Memory, r: nat, v: Word)
    requires SelfMapped(m, r)
    ensures Pml4Rec(v) < WORD_LIMIT && PdpeRec(v) < WORD_LIMIT && PgdRec(v) < WORD_LIMIT && PteRec(v) < WORD_LIMIT
    ensures Pml4Rec(v) % 8 == 0 && PdpeRec(v) % 8 == 0 && PgdRec(v) % 8 == 0 && PteRec(v) % 8 == 0
    ensures Translate(m, r, Pml4Rec(v)) == EntryAddress(m, r, Root, I4(v))
    ensures Translate(m, r, PdpeRec(v)) == EntryAddress(m, r, Dir3(v), I3(v))
    ensures Translate(m, r, PgdRec(v)) == EntryAddress(m, r, Dir2(v), I2(v))
    ensures Translate(m, r, PteRec(v)) == EntryAddress(m, r, Dir1(v), I1(v))
  {
    hide Pml4Rec, PdpeRec, PgdRec, PteRec, Page;
    Pml4RecPath(v);
    PdpeRecPath(v);
    PgdRecPath(v);
    PteRecPath(v);
    Multiple8(Pml4Rec(v), I4(v));
    Multiple8(PdpeRec(v), I3(v));
    Multiple8(PgdRec(v), I2(v));
    Multiple8(PteRec(v), I1(v));
    SelfSteps(m, r, I4(v));
    SelfSteps(m, r, SELF);
    var s1, s2 := Down(Root, SELF), Down(Down(Root, SELF), SELF);
    assert Follow(m, r, Down(Down(s2, I4(v)), I3(v))) == Follow(m, r, Dir2(v));
    assert Follow(m, r, Down(Down(s1, I4(v)), I3(v))) == Follow(m, r, Dir2(v));
    assert Follow(m, r, Down(Down(Down(s1, I4(v)), I3(v)), I2(v))) == Follow(m, r, Dir1(v));
  }

  /** Any number of steps through slot 510 stays at the root. */
  lemma SelfSteps(m: Memory, r: nat, i: nat)
    requires SelfMapped(m, r)
    ensures var s1 := Down(Root, SELF); var s2 := Down(s1, SELF); var s3 := Down(s2, SELF);
            var o := Follow(m, r, Down(Root, i));
            Follow(m, r, Down(s1, i)) == o && Follow(m, r, Down(s2, i)) == o && Follow(m, r, Down(s3, i)) == o
  {
    var s1 := Down(Root, SELF);
    var s2 := Down(s1, SELF);
    var s3 := Down(s2, SELF);
    assert Follow(m, r, s1) == Some(r);
    assert Follow(m, r, s2) == Some(r);
    assert Follow(m, r, s3) == Some(r);
  }
}
