/** The kernel's memory as a whole: the page tables of all address spaces, the free list stored
    in the memory it describes, the frames still on it, and the window at KERNBASE through which
    the list is read. What every operation keeps is Inv. */
module AddressSpace {
  import opened Words
  import opened Mmu
  import opened PageTree

  /** mem: physical memory; tables: the table frames in it; kroot: the kernel's PML4;
      lo, hi: frames lo .. hi-1 are mapped at KERNBASE + their physical address;
      base: physical address of the first list node; frames: the frames of all nodes in list
      order; pos: how many of them have been handed out. */
  datatype Space = Space(mem: Memory, tables: Tables, kroot: nat, lo: nat, hi: nat,
                         base: nat, frames: seq<nat>, pos: nat)

  /** sizeof(Page): next, status, p_addr. */
  const NODE: nat := 24
  /** Frames below 2 GiB have a kernel address. */
  const WINDOW_LIMIT: nat := 0x8_0000

  // ---- The free list ----

  function NodeAddress(s: Space, j: nat): nat { s.base + NODE * j }

  /** The `next` field of node j. */
  function NextField(s: Space, j: nat): nat {
    if j + 1 < |s.frames| then NodeAddress(s, j + 1) else 0
  }

  predicate NodeStored(s: Space, j: nat)
    requires j < |s.frames|
  {
    && NodeAddress(s, j) + 16 < WORD_LIMIT
    && ReadPhys(s.mem, NodeAddress(s, j)) == NextField(s, j)
    && ReadPhys(s.mem, NodeAddress(s, j) + 16) == 4096 * s.frames[j]
  }

  /** The frames that hold list nodes. */
  predicate ListFrame(s: Space, f: nat) {
    s.base / 4096 <= f && 4096 * f < NodeAddress(s, |s.frames|)
  }

  ghost predicate ListOk(s: Space) {
    && s.base % 4096 == 0
    && s.pos <= |s.frames|
    && (forall j :: s.pos <= j < |s.frames| ==> NodeStored(s, j))
    && (forall f :: f in s.tables ==> !ListFrame(s, f))
  }

  predicate FreeFrame(s: Space, j: nat)
    requires j < |s.frames|
  {
    var f := s.frames[j];
    0 < f < FRAME_LIMIT && f !in s.tables && !ListFrame(s, f)
  }

  ghost predicate FreeOk(s: Space) {
    && (forall i, j :: 0 <= i < j < |s.frames| ==> s.frames[i] != s.frames[j])
    && (forall j :: s.pos <= j < |s.frames| ==> FreeFrame(s, j) && ZeroFrame(s.mem, s.frames[j]))
  }

  // ---- The kernel window ----

  function KernPage(f: nat): (v: Word)
    ensures v >= KERNBASE && v % 4096 == 0
  {
    if f < WINDOW_LIMIT then KERNBASE + 4096 * f else KERNBASE
  }

  predicate InWindow(s: Space, f: nat) {
    Follow(s.mem, s.kroot, Page(KernPage(f))) == Some(f)
  }

  ghost predicate WindowOk(s: Space) {
    && s.hi <= WINDOW_LIMIT
    && (forall f :: s.lo <= f < s.hi ==> InWindow(s, f))
    && s.lo <= s.kroot < s.hi
    && s.lo <= s.base / 4096
    && NodeAddress(s, |s.frames|) <= 4096 * s.hi
    && Present(Read(s.mem, s.kroot, KERNEL_HALF))
  }

  /** What holds from the moment the list is built. */
  ghost predicate BootInv(s: Space) {
    TreeOk(s.mem, s.tables, s.kroot) && ListOk(s) && FreeOk(s)
  }

  /** The entry in slot 511 is there to be copied, or there is nobody yet to have copied it. */
  ghost predicate HalfOk(s: Space) {
    Present(Read(s.mem, s.kroot, KERNEL_HALF)) || forall r :: IsRoot(s.tables, r) ==> r == s.kroot
  }

  /** What holds from the moment the kernel runs on its own tables. */
  ghost predicate Inv(s: Space) {
    BootInv(s) && WindowOk(s)
  }

  /** A physical address in the window is mapped at KERNBASE plus itself in every space. */
  lemma WindowTranslates(s: Space, r: nat, a: nat, v: nat)
    requires Inv(s) && IsRoot(s.tables, r) && s.lo <= a / 4096 < s.hi && v == KERNBASE + a
    ensures v < WORD_LIMIT && Translate(s.mem, r, v) == Some(a)
  {
    var w := KernPage(a / 4096);
    assert v < WORD_LIMIT;
    assert v / 4096 == w / 4096 && v % 4096 == a % 4096;
    SamePage(v, w);
    KernelAddress(v);
    KernelAddress(w);
    assert InWindow(s, a / 4096);
    SharedHalf(s.mem, s.tables, s.kroot, r, Page(w));
  }

  /** Aligned physical addresses name different words when they differ. */
  lemma PhysDistinct(m: Memory, a: nat, w: Word, b: nat)
    requires a % 8 == 0 && b % 8 == 0
    ensures ReadPhys(WritePhys(m, a, w), b) == if a == b then w else ReadPhys(m, b)
  {
    WordNumber(a);
    WordNumber(b);
  }

  lemma WordNumber(a: nat)
    requires a % 8 == 0
    ensures a == 4096 * (a / 4096) + 8 * (a % 4096 / 8)
  {
    assert a == 8 * (a / 8);
    assert a % 4096 == 8 * (a / 8 - 512 * (a / 4096));
  }

  // ---- Taking a frame off the list ----

  /** The space after the head of the list has been taken: its status word is set. */
  function Popped(s: Space): Space {
    s.(mem := WritePhys(s.mem, NodeAddress(s, s.pos) + 8, 1), pos := s.pos + 1)
  }

  lemma StatusWord(s: Space)
    requires ListOk(s) && s.pos < |s.frames|
    ensures ListFrame(s, (NodeAddress(s, s.pos) + 8) / 4096)
  {
  }

  /** Node fields are aligned words, and the status word of one node is no other field. */
  lemma NodeFields(base: nat, i: nat, j: nat)
    requires base % 4096 == 0
    ensures (base + NODE * j) % 8 == 0 && (base + NODE * j + 8) % 8 == 0 && (base + NODE * j + 16) % 8 == 0
    ensures base + NODE * i + 8 != base + NODE * j && base + NODE * i + 8 != base + NODE * j + 16
  {
    var b := base / 4096;
    Divided(base, 4096);
    DivModUnique(base + NODE * j, 8, 512 * b + 3 * j, 0);
    DivModUnique(base + NODE * j + 8, 8, 512 * b + 3 * j + 1, 0);
    DivModUnique(base + NODE * j + 16, 8, 512 * b + 3 * j + 2, 0);
    FieldsDiffer(i, j);
  }

  lemma FieldsDiffer(i: nat, j: nat)
    ensures NODE * i + 8 != NODE * j && NODE * i + 8 != NODE * j + 16
  {
    assert 8 * (3 * i + 1) != 8 * (3 * j) && 8 * (3 * i + 1) != 8 * (3 * j + 2);
  }

  lemma PopNode(s: Space, j: nat)
    requires ListOk(s) && s.pos < |s.frames| && s.pos <= j < |s.frames|
    ensures NodeStored(Popped(s), j)
  {
    assert NodeStored(s, j);
    NodeFields(s.base, s.pos, j);
    NodeFields(s.base, j, s.pos);
    var a, b := NodeAddress(s, s.pos) + 8, NodeAddress(s, j);
    PhysDistinct(s.mem, a, 1, b);
    PhysDistinct(s.mem, a, 1, b + 16);
  }

  /** Frames that hold no list node keep their contents. */
  lemma PopFrame(s: Space, f: nat, i: nat)
    requires ListOk(s) && s.pos < |s.frames| && !ListFrame(s, f)
    ensures Read(Popped(s).mem, f, i) == Read(s.mem, f, i)
  {
    StatusWord(s);
  }

  lemma PopKeepsBoot(s: Space)
    requires BootInv(s) && s.pos < |s.frames|
    ensures BootInv(Popped(s)) && SameTables(s.mem, Popped(s).mem, s.tables)
    ensures ZeroFrame(Popped(s).mem, s.frames[s.pos])
  {
    var s' := Popped(s);
    forall f, i | !ListFrame(s, f)
      ensures Read(s'.mem, f, i) == Read(s.mem, f, i)
    {
      PopFrame(s, f, i);
    }
    SameTree(s.mem, s'.mem, s.tables, s.kroot);
    forall j | s.pos <= j < |s.frames|
      ensures NodeStored(s', j)
      ensures FreeFrame(s', j) && ZeroFrame(s'.mem, s.frames[j])
    {
      PopNode(s, j);
      assert FreeFrame(s, j);
      assert ZeroFrame(s.mem, s.frames[j]);
    }
  }

  lemma PopKeeps(s: Space)
    requires Inv(s) && s.pos < |s.frames|
    ensures Inv(Popped(s))
  {
    PopKeepsBoot(s);
    SameWindow(s, Popped(s));
  }

  /** Changes outside the tables leave the window in place. */
  lemma SameWindow(s: Space, s': Space)
    requires BootInv(s) && WindowOk(s) && SameTables(s.mem, s'.mem, s.tables)
    requires s' == s.(mem := s'.mem, pos := s'.pos)
    ensures WindowOk(s')
  {
    forall f | s'.lo <= f < s'.hi
      ensures InWindow(s', f)
    {
      assert InWindow(s, f);
      SameFollow(s.mem, s'.mem, s.tables, s.kroot, s.kroot, Page(KernPage(f)));
    }
  }

  // ---- Writing one table entry ----

  /** The space after entry i of the table at path `up` of root r has been set to e. */
  function EntrySet(s: Space, r: nat, up: Trail, i: nat, e: Word): Space
    requires Follow(s.mem, r, up).Some? && Follow(s.mem, r, up).value in s.tables
  {
    var f := Follow(s.mem, r, up).value;
    s.(mem := Write(s.mem, f, i, e), tables := TablesAfter(s.tables, s.kroot, f, i, e))
  }

  /** Whether that write is one the kernel makes: into a direct path, not over a page of the
      window, linking only frames that are off the list. */
  ghost predicate MaySet(s: Space, r: nat, up: Trail, i: nat, e: Word) {
    && IsRoot(s.tables, r)
    && Down(up, i).Legal() && Down(up, i).Direct() && up.Depth() <= 3
    && Follow(s.mem, r, up).Some?
    && MayWrite(s.mem, s.tables, s.kroot, Follow(s.mem, r, up).value, i, e)
    && (up.Depth() == 3 || OffList(s, Target(e)))
  }

  ghost predicate OffList(s: Space, c: nat) {
    !ListFrame(s, c) && forall j :: s.pos <= j < |s.frames| ==> s.frames[j] != c
  }

  /** How the write of target c at path t of root r shows at path u of root q. */
  predicate PathChange(m: Memory, m': Memory, r: nat, t: Trail, c: nat, q: nat, u: Trail)
    requires t.Down?
  {
    && (u.Direct() ==>
          Follow(m', q, u) == if u == t && Sees(r, q, t) then Some(c) else Follow(m, q, u))
    && (q != r && t.Head() != KERNEL_HALF ==> Follow(m', q, u) == Follow(m, q, u))
  }

  lemma SetChanges(s: Space, r: nat, up: Trail, i: nat, e: Word)
    requires BootInv(s) && MaySet(s, r, up, i, e)
    ensures Follow(s.mem, r, up).value in s.tables
    ensures forall q, u: Trail
              {:trigger PathChange(s.mem, EntrySet(s, r, up, i, e).mem, r, Down(up, i), Target(e), q, u)} ::
              IsRoot(s.tables, q) && u.Legal() && u.Depth() <= 4 ==>
              PathChange(s.mem, EntrySet(s, r, up, i, e).mem, r, Down(up, i), Target(e), q, u)
  {
    FollowArrives(s.mem, s.tables, s.kroot, r, up);
    forall q, u: Trail | IsRoot(s.tables, q) && u.Legal() && u.Depth() <= 4
      ensures PathChange(s.mem, EntrySet(s, r, up, i, e).mem, r, Down(up, i), Target(e), q, u)
    {
      WriteAt(s.mem, s.tables, s.kroot, r, up, i, e, q, u);
    }
  }

  lemma SetNode(s: Space, f: nat, i: nat, e: Word, j: nat)
    requires ListOk(s) && s.pos <= j < |s.frames| && f in s.tables
    ensures NodeStored(s.(mem := Write(s.mem, f, i, e)), j)
  {
    assert NodeStored(s, j);
    var b := NodeAddress(s, j);
    assert ListFrame(s, b / 4096) && ListFrame(s, (b + 16) / 4096);
  }

  lemma SetKeepsBoot(s: Space, r: nat, up: Trail, i: nat, e: Word)
    requires BootInv(s) && MaySet(s, r, up, i, e)
    ensures Follow(s.mem, r, up).value in s.tables
    ensures BootInv(EntrySet(s, r, up, i, e))
  {
    FollowArrives(s.mem, s.tables, s.kroot, r, up);
    var f, s' := Follow(s.mem, r, up).value, EntrySet(s, r, up, i, e);
    WriteKeepsTree(s.mem, s.tables, s.kroot, f, i, e);
    assert up.Direct();
    assert s.tables[f].level > 1 ==> up.Depth() < 3;
    forall j | s.pos <= j < |s.frames|
      ensures NodeStored(s', j)
      ensures FreeFrame(s', j) && ZeroFrame(s'.mem, s'.frames[j])
    {
      SetNode(s, f, i, e, j);
      assert NodeStored(s.(mem := s'.mem), j);
      assert FreeFrame(s, j);
      assert ZeroFrame(s.mem, s.frames[j]);
      assert forall n :: 0 <= n < SLOTS ==> Read(s'.mem, s.frames[j], n) == Read(s.mem, s.frames[j], n);
    }
  }
}
