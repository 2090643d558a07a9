/** Physical memory as frames of 512 words, and the 4-level page walk of the processor
    (Intel SDM Vol. 3A, section 4.5) as a pure function of memory, root frame and address. */
module Mmu {
  import opened Words

  datatype Option<+T> = None | Some(value: T)

  const SLOTS: nat := 512
  const PAGESIZE: nat := 4096
  const FRAME_LIMIT: nat := 0x100_0000_0000  // 2^40 frames: 52-bit physical addresses

  /** Slot number of the entry through which a PML4 refers to itself. */
  const SELF: nat := 510
  /** Slot number of the half that all address spaces share. */
  const KERNEL_HALF: nat := 511

  const KERNBASE: Word := 0xffff_ffff_8000_0000

  /** One 64-bit word of physical memory: physical address 4096 * frame + 8 * index. */
  datatype Slot = Slot(frame: nat, index: nat)

  /** Physical memory; words never written read as zero. */
  type Memory = map<Slot, Word>

  function Read(m: Memory, f: nat, i: nat): Word {
    if Slot(f, i) in m then m[Slot(f, i)] else 0
  }

  function Write(m: Memory, f: nat, i: nat, w: Word): Memory {
    m[Slot(f, i) := w]
  }

  /** The word at an 8-byte aligned physical address. */
  function ReadPhys(m: Memory, a: nat): Word {
    Read(m, a / 4096, a % 4096 / 8)
  }

  function WritePhys(m: Memory, a: nat, w: Word): Memory {
    Write(m, a / 4096, a % 4096 / 8, w)
  }

  // Fields of an entry (SDM Vol. 3A, tables 4-15 to 4-20).

  predicate Present(e: Word) { e % 2 == 1 }

  predicate UserBit(e: Word) { e / 4 % 2 == 1 }

  function Target(e: Word): (f: nat)
    ensures f < FRAME_LIMIT
  {
    e / 4096 % 0x100_0000_0000
  }

  /** The entry that maps or links a frame; flags is PAGE_KERNEL or PAGE_USER. */
  function Entry(f: nat, flags: nat): (e: Word)
    requires f < FRAME_LIMIT && (flags == 3 || flags == 7)
    ensures Present(e) && Target(e) == f && (UserBit(e) <==> flags == 7) && e % 4096 == flags
  {
    f * 4096 + flags
  }

  /** A path of table indices, innermost table last. */
  datatype Trail = Root | Down(up: Trail, index: nat) {
    function Depth(): nat {
      if Root? then 0 else 1 + up.Depth()
    }

    /** The index taken in the PML4. */
    function Head(): nat
      requires Down?
    {
      if up.Root? then index else up.Head()
    }

    /** Whether every index is a slot number. */
    predicate Legal() {
      Root? || (index < SLOTS && up.Legal())
    }

    /** Whether the path stays out of the recursive window. */
    predicate Direct() {
      Root? || Head() != SELF
    }
  }

  /** The frame reached from root r by taking each index of the path in turn. */
  function Follow(m: Memory, r: nat, t: Trail): (o: Option<nat>)
    decreases t
  {
    match t
    case Root => Some(r)
    case Down(up, i) =>
      match Follow(m, r, up)
      case None => None
      case Some(f) =>
        if Present(Read(m, f, i)) then Some(Target(Read(m, f, i))) else None
  }

  /** Whether all entries on the path have the U/S bit (SDM Vol. 3A, section 4.6). */
  predicate UserPath(m: Memory, r: nat, t: Trail)
    decreases t
  {
    match t
    case Root => true
    case Down(up, i) =>
      UserPath(m, r, up) &&
      match Follow(m, r, up)
      case None => false
      case Some(f) => Present(Read(m, f, i)) && UserBit(Read(m, f, i))
  }

  // Linear addresses.

  function I4(v: Word): (i: nat) ensures i < SLOTS { v / 0x80_0000_0000 % 512 }
  function I3(v: Word): (i: nat) ensures i < SLOTS { v / 0x4000_0000 % 512 }
  function I2(v: Word): (i: nat) ensures i < SLOTS { v / 0x20_0000 % 512 }
  function I1(v: Word): (i: nat) ensures i < SLOTS { v / 0x1000 % 512 }

  // The tables on the path of v: its PDPT, PD and PT.
  function Dir3(v: Word): (t: Trail)
    ensures t.Depth() == 1 && t.Legal() && t.Head() == I4(v)
  {
    Down(Root, I4(v))
  }

  function Dir2(v: Word): (t: Trail)
    ensures t.Depth() == 2 && t.Legal() && t.Head() == I4(v)
  {
    Down(Dir3(v), I3(v))
  }

  function Dir1(v: Word): (t: Trail)
    ensures t.Depth() == 3 && t.Legal() && t.Head() == I4(v)
  {
    Down(Dir2(v), I2(v))
  }

  /** The complete path of the page that contains v. */
  function Page(v: Word): (t: Trail)
    ensures t.Depth() == 4 && t.Legal() && t.Head() == I4(v)
  {
    Down(Dir1(v), I1(v))
  }

  predicate Canonical(v: Word) {
    v < 0x8000_0000_0000 || v >= 0xffff_8000_0000_0000
  }

  /** The MMU: the physical address of v in the address space rooted at frame r. */
  function Translate(m: Memory, r: nat, v: Word): Option<nat> {
    if !Canonical(v) then None
    else match Follow(m, r, Page(v))
      case None => None
      case Some(f) => Some(4096 * f + v % 4096)
  }

  /** Whether user-mode code may access v. */
  predicate UserAccess(m: Memory, r: nat, v: Word) {
    Canonical(v) && UserPath(m, r, Page(v))
  }

  /** The four indices are the base-512 digits of the page number. */
  lemma IndexOfPage(v: Word)
    ensures v / 0x1000 % 0x10_0000_0000 == I1(v) + 512 * (I2(v) + 512 * (I3(v) + 512 * I4(v)))
  {
    var n := v / 0x1000;
    DivModSplit(v, 0x1000, 512);
    DivModSplit(v, 0x1000, 0x4_0000);
    DivModSplit(v, 0x1000, 0x800_0000);
    DivModSplit(n, 512, 512);
    DivModSplit(n, 0x4_0000, 512);
    assert n / 512 / 512 == n / 0x4_0000;
    DivModSplit(n, 512, 0x800_0000);
    DivModSplit(n / 512, 512, 0x4_0000);
    DivModSplit(n / 0x4_0000, 512, 512);
  }

  lemma CanonicalPage(v: Word)
    requires Canonical(v)
    ensures var n := v / 4096; var low := n % 0x10_0000_0000;
            n == if low < 0x8_0000_0000 then low else low + 0xf_fff0_0000_0000
  {
    var n := v / 4096;
    if v < 0x8000_0000_0000 {
      assert n < 0x8_0000_0000;
    } else {
      assert 0xf_fff8_0000_0000 <= n < 0x10_0000_0000_0000;
      var low := n - 0xf_fff0_0000_0000;
      assert n == 0xffff * 0x10_0000_0000 + low;
    }
  }

  /** Two canonical addresses have the same path exactly when they lie in the same page. */
  lemma PageIdentifies(v: Word, w: Word)
    requires Canonical(v) && Canonical(w)
    ensures Page(v) == Page(w) <==> v / 4096 == w / 4096
  {
    IndexOfPage(v);
    IndexOfPage(w);
    CanonicalPage(v);
    CanonicalPage(w);
    if v / 4096 == w / 4096 {
      SamePage(v, w);
    }
  }

  lemma SamePage(v: Word, w: Word)
    requires v / 4096 == w / 4096
    ensures Page(v) == Page(w)
  {
    DivModSplit(v, 0x1000, 512);
    DivModSplit(v, 0x1000, 0x4_0000);
    DivModSplit(v, 0x1000, 0x800_0000);
    DivModSplit(w, 0x1000, 512);
    DivModSplit(w, 0x1000, 0x4_0000);
    DivModSplit(w, 0x1000, 0x800_0000);
  }

  /** Addresses at and above KERNBASE belong to the shared half. */
  lemma KernelAddress(v: Word)
    requires v >= KERNBASE
    ensures Canonical(v) && I4(v) == KERNEL_HALF
  {
  }
}
