/** sys/main.c from the memory map to the first process: the executable lies in the kernel's own image,
    below the free list, where booting leaves it alone and the kernel's tables map it. */
module FirstProcess {
  import opened Words
  import opened Mmu
  import opened PageTree
  import opened AddressSpace
  import opened Mapping
  import opened Spaces
  import opened Paging
  import opened FreeList
  import opened Boot
  import opened Runs
  import opened Accounts
  import opened Start
  import opened Bytes
  import opened CString
  import opened Process
  import opened Creation
  import Elf

  /** The file lies in physical memory from address at on. */
  ghost predicate FileAt(m: Memory, at: nat, file: seq<Byte>) {
    forall j {:trigger file[j]} :: 0 <= j < |file| ==> ReadByte(m, (at + j) / 4096, (at + j) % 4096) == file[j]
  }

  lemma FileStays(m: Memory, m': Memory, at: nat, file: seq<Byte>, first: nat)
    requires FileAt(m, at, file) && SameBelow(m, m', first) && at + |file| <= 4096 * first
    ensures FileAt(m', at, file)
  {
    hide ByteOfWord;
    forall j | 0 <= j < |file|
      ensures ReadByte(m', (at + j) / 4096, (at + j) % 4096) == file[j]
    {
      assert (at + j) / 4096 < first;
    }
  }

  /** The kernel below its free list: mapped at KERNBASE, in no table, never on the list. */
  ghost predicate KernelInPlace(y: System, l: nat) {
    && Good(y) && OnlyTables(y.space, l) && AllAbove(y.space.frames, y.space.base / 4096)
    && y.space.lo <= y.space.base / 4096 <= y.space.hi
  }

  lemma KernelFrame(y: System, l: nat, f: nat)
    requires KernelInPlace(y, l) && y.space.lo <= f < y.space.base / 4096
    ensures f < WINDOW_LIMIT && DataFrame(y.space, f)
    ensures Follow(y.space.mem, y.space.kroot, Page(KernPage(f))) == Some(f)
  {
    hide Follow, Page, BootInv, HeapOk, UserOk;
    assert InWindow(y.space, f);
    assert !HandedOut(y.space, l, f);
  }

  /** Any part of the kernel's image can be loaded from, and reads as it lies in physical memory. */
  lemma KernelByte(y: System, l: nat, src: Word, i: nat)
    requires KernelInPlace(y, l) && KERNBASE + 4096 * y.space.lo <= src && src + i < KERNBASE + y.space.base
    ensures src + i < WORD_LIMIT && SourceAt(y, src, i)
    ensures var a := src - KERNBASE + i; SourceByte(y, src, i) == ReadByte(y.space.mem, a / 4096, a % 4096)
  {
    hide Follow, Page, DataFrame, ReadByte, Good, OnlyTables, AllAbove;
    var a: nat := src - KERNBASE + i;
    BaseIsAligned(y);
    KernelFrame(y, l, a / 4096);
    KernelPageOf(a);
  }

  lemma BaseIsAligned(y: System)
    requires Good(y)
    ensures y.space.base % 4096 == 0
  {
  }

  lemma KernelPageOf(a: nat)
    requires a / 4096 < WINDOW_LIMIT
    ensures KERNBASE + a < WORD_LIMIT && Page(KERNBASE + a) == Page(KernPage(a / 4096))
    ensures (KERNBASE + a) % 4096 == a % 4096
  {
    var w := KernPage(a / 4096);
    assert (KERNBASE + a) / 4096 == w / 4096;
    SamePage(KERNBASE + a, w);
  }

  /** What load_elf_vmas makes of these program headers. */
  function AreasOf(phdrs: seq<Elf.Phdr>): seq<Elf.Area> {
    Elf.FileAreas(phdrs) + [Elf.STACK, Elf.HEAP]
  }

  /** The pages of all areas are apart, and what they are filled from lies in the `room` bytes from the
      executable on. */
  ghost predicate AreasFit(areas: seq<Elf.Area>, room: nat) {
    && AreasApart(areas)
    && forall i :: 0 <= i < |areas| && areas[i].kind.TYPE_FILE? ==>
         8 * areas[i].offset + 4096 * AreaPages(areas[i]) <= room
  }

  /** Frames for booting, for the control block and PML4 of the process, and for its pages. */
  ghost predicate EnoughFrames(smap: seq<Smap>, physbase: Word, physfree: Word, areas: seq<Elf.Area>) {
    var fs := FoundIn(smap, |smap|, physfree).frames;
    ListPages(|fs|) + 1 + |BootDirs(physbase, physfree, |fs|)| + SPACE_FRAMES + 4 * TotalPages(areas, |areas|) <= |fs|
  }

  /** After start the executable can be loaded from where it lies. */
  lemma CanCreateFirst(y: System, l: nat, at: nat, file: seq<Byte>, areas: seq<Elf.Area>)
    requires KernelInPlace(y, l) && y.space.hi + 200 < WINDOW_LIMIT
    requires 4096 * y.space.lo <= at && at + |file| <= y.space.base
    requires FileAt(y.space.mem, at, file) && AreasFit(areas, y.space.base - at)
    requires y.top == KERNBASE + 4096 * (y.space.hi + 189)
    requires y.space.pos + SPACE_FRAMES + 4 * TotalPages(areas, |areas|) <= |y.space.frames|
    ensures KERNBASE + at < WORD_LIMIT && Prepared(y, areas, KERNBASE + at) && ImageAt(y, KERNBASE + at, file)
    ensures CanCreateProcess(y, areas, KERNBASE + at)
  {
    hide Good, OnlyTables, AllAbove, AreasApart, AreaPages, SourceAddress, TotalPages, ReadByte, SourceByte;
    hide CanCreateProcess;
    BaseBelowWindow(y, l);
    var head, room: nat := KERNBASE + at, y.space.base - at;
    forall i | 0 <= i < room
      ensures SourceAt(y, head, i)
    {
      KernelByte(y, l, head, i);
    }
    forall j | 0 <= j < |file|
      ensures SourceByte(y, head, j) == file[j]
    {
      KernelByte(y, l, head, j);
    }
    forall i | 0 <= i < |areas| && areas[i].kind.TYPE_FILE?
      ensures SourceOk(y, SourceAddress(head, areas[i].offset), 4096 * AreaPages(areas[i]))
    {
      SourceWithin(y, head, areas[i].offset, 4096 * AreaPages(areas[i]), room);
    }
    CanCreate(y, areas, head);
  }

  lemma BaseBelowWindow(y: System, l: nat)
    requires KernelInPlace(y, l) && y.space.hi + 200 < WINDOW_LIMIT
    ensures y.space.base < 4096 * WINDOW_LIMIT && KERNBASE + 4096 * WINDOW_LIMIT == WORD_LIMIT
  {
    BaseIsAligned(y);
  }

  /** A segment of the file is in the setting of SegmentHolds. */
  lemma SegmentsOfFile(y: System, areas: seq<Elf.Area>, head: Word, i: nat, h: Elf.Phdr, file: seq<Byte>)
    requires Good(y) && Prepared(y, areas, head) && ImageAt(y, head, file) && CanCreateProcess(y, areas, head)
    requires Loadable(areas, i, h) && 8 * h.offset + h.vaddr % 4096 + h.filesz <= |file|
    ensures CreatedFrom(y, areas, head, i, h, file)
  {
    hide Good, ImageAt, CanCreateProcess, AreasApart, SourceOk, AreaPages, SourceAddress, TotalPages;
    assert areas[i].kind.TYPE_FILE? && areas[i].offset == h.offset;
  }

  /** create_process has made y' of y, from the executable at physical address `at`. */
  ghost predicate CreatedAt(y: System, y': System, areas: seq<Elf.Area>, at: Word, entry: Word, process: Process.Pcb) {
    && KERNBASE + at < WORD_LIMIT && CanCreateProcess(y, areas, KERNBASE + at)
    && y' == Created(y, areas, KERNBASE + at)
    && process == Process.Pcb(y.top, 4096 * NewRoot(y), entry, USER_STACK_TOP - 64)
  }

  /** Every segment whose bytes the loader reads from the file is in the setting of SegmentHolds. */
  ghost predicate AllSegments(y: System, areas: seq<Elf.Area>, at: Word, file: seq<Byte>) {
    && KERNBASE + at < WORD_LIMIT
    && forall i, h {:trigger Loadable(areas, i, h)} ::
         Loadable(areas, i, h) && 8 * h.offset + h.vaddr % 4096 + h.filesz <= |file| ==>
         CreatedFrom(y, areas, KERNBASE + at, i, h, file)
  }

  /** From the memory map to the first process, for an executable within the kernel's image at physical
      address `at`: the whole chain of conditions is met, and every segment is in the setting of
      SegmentHolds, with the bytes that lay there before the kernel started. */
  method StartFirstProcess(k: Kernel, smap: seq<Smap>, physbase: Word, physfree: Word, at: Word, entry: Word,
                           phdrs: seq<Elf.Phdr>, ghost file: seq<Byte>)
      returns (process: Process.Pcb, ghost y: System)
    requires CanStart(k.mem, smap, physbase, physfree) && FileAt(k.mem, at, file)
    requires 4096 * (physbase / 4096) <= at && at + |file| <= physfree && AreasFit(AreasOf(phdrs), physfree - at)
    requires EnoughFrames(smap, physbase, physfree, AreasOf(phdrs))
    modifies k
    ensures k.Valid() && Good(SystemOf(k)) && Good(y)
    ensures CreatedAt(y, SystemOf(k), AreasOf(phdrs), at, entry, process)
    ensures AllSegments(y, AreasOf(phdrs), at, file)
    ensures forall i {:trigger phdrs[i]} ::
              0 <= i < |phdrs| && phdrs[i].kind == 1 && phdrs[i].vaddr + phdrs[i].memsz < WORD_LIMIT ==>
              SegmentOpen(k.mem, process.cr3 / 4096, phdrs[i])
  {
    hide Good, Inv, Created, CanCreateProcess, CreatedFrom, CanStart, FileAt, AreasFit, EnoughFrames, Prepared, ImageAt;
    hide StackPointer, BootDirs, FoundIn, OnlyTables, AllAbove, SameBelow, Elf.Holds, Elf.FileAreas, NewRoot, ListPages;
    ghost var m, areas := k.mem, AreasOf(phdrs);
    Start.Start(k, smap, physbase, physfree);
    y := SystemOf(k);
    AfterStart(k, m, smap, physbase, physfree, at, file, areas);
    var head, list := Elf.LoadElfVmas(KERNBASE + at, entry, phdrs);
    process := CreateProcess(k, head, list, areas);
    LastStack(Elf.FileAreas(phdrs));
    forall i | 0 <= i < |phdrs| && phdrs[i].kind == 1 && phdrs[i].vaddr + phdrs[i].memsz < WORD_LIMIT
      ensures SegmentOpen(k.mem, process.cr3 / 4096, phdrs[i])
    {
      HeaderIsOpen(y, phdrs, KERNBASE + at, i);
    }
    forall i, h | Loadable(areas, i, h) && 8 * h.offset + h.vaddr % 4096 + h.filesz <= |file|
      ensures CreatedFrom(y, areas, KERNBASE + at, i, h, file)
    {
      SegmentsOfFile(y, areas, KERNBASE + at, i, h, file);
    }
  }

  /** Every loadable segment of the executable, over its whole size in memory. */
  lemma HeaderIsOpen(y: System, phdrs: seq<Elf.Phdr>, head: Word, k: nat)
    requires Good(y) && Prepared(y, AreasOf(phdrs), head) && CanCreateProcess(y, AreasOf(phdrs), head)
    requires k < |phdrs| && phdrs[k].kind == 1 && phdrs[k].vaddr + phdrs[k].memsz < WORD_LIMIT
    ensures SegmentOpen(Created(y, AreasOf(phdrs), head).space.mem, NewRoot(y), phdrs[k])
  {
    hide Good, CanCreateProcess, Created, NewRoot, AreasApart, SourceOk, AreaPages, SourceAddress, TotalPages;
    hide SegmentOpen, Elf.FileAreas;
    var i := Elf.AreaOfSegment(phdrs, k);
    assert AreasOf(phdrs)[i] == Elf.FileAreas(phdrs)[i];
    SegmentIsOpen(y, AreasOf(phdrs), head, i, phdrs[k]);
  }

  /** What start leaves behind is what create_process needs. */
  lemma AfterStart(k: Kernel, m: Memory, smap: seq<Smap>, physbase: Word, physfree: Word, at: Word, file: seq<Byte>,
                   areas: seq<Elf.Area>)
    requires CanStart(m, smap, physbase, physfree) && FileAt(m, at, file)
    requires 4096 * (physbase / 4096) <= at && at + |file| <= physfree && AreasFit(areas, physfree - at)
    requires EnoughFrames(smap, physbase, physfree, areas)
    requires k.Valid() && Good(SystemOf(k)) && k.frames == FoundIn(smap, |smap|, physfree).frames
    requires k.pos <= ListPages(|k.frames|) + 1 + |BootDirs(physbase, physfree, |k.frames|)|
    requires k.lo == physbase / 4096 && k.hi == physfree / 4096 + ListPages(|k.frames|) + 11
    requires k.topVirtualAddress == KERNBASE + 4096 * (k.hi + 189) && k.base == physfree
    requires OnlyTables(k.View(), ListPages(|k.frames|)) && AllAbove(k.frames, physfree / 4096)
    requires SameBelow(m, k.mem, physfree / 4096)
    ensures KERNBASE + at < WORD_LIMIT && Prepared(SystemOf(k), areas, KERNBASE + at)
    ensures ImageAt(SystemOf(k), KERNBASE + at, file) && CanCreateProcess(SystemOf(k), areas, KERNBASE + at)
  {
    hide Good, Inv, OnlyTables, AllAbove, FoundIn, BootDirs, SmapFits, TotalPages, AreasFit, Prepared, ImageAt;
    hide CanCreateProcess, SameBelow, ListPages, FileAt;
    FileStays(m, k.mem, at, file, physfree / 4096);
    CanCreateFirst(SystemOf(k), ListPages(|k.frames|), at, file, areas);
  }

  lemma LastStack(areas: seq<Elf.Area>)
    ensures var all := areas + [Elf.STACK, Elf.HEAP]; StackPointer(all, |all|) == USER_STACK_TOP - 64
  {
    var all := areas + [Elf.STACK, Elf.HEAP];
    assert all[|all| - 1] == Elf.HEAP && all[|all| - 2] == Elf.STACK;
    assert StackPointer(all, |all|) == StackPointer(all, |all| - 1);
  }

  // ---- A machine whose first process has a wrong byte ----

  /** One byte of an executable, at p_offset 0x1000, for address 0x401000. */
  const ONE_BYTE: Elf.Phdr := Elf.Phdr(Elf.PT_LOAD, 0x1000, 0x40_1000, 1, 1)

  /** The executable at the start of the kernel's image: zeroes, with a one at eight times that offset. */
  const ONE_BYTE_MEMORY: Memory := Write(map[], 0x208, 0, 1)

  lemma {:induction false} ByteOfSmall(w: nat, k: nat)
    requires w < 256
    ensures ByteOfWord(w, k) == if k == 0 then w else 0
  {
    if k > 0 {
      ByteOfSmall(0, k - 1);
    }
  }

  lemma OneByteFile()
    ensures FileAt(ONE_BYTE_MEMORY, 0x20_0000, MarkedFile(ONE_BYTE)) && |MarkedFile(ONE_BYTE)| == 0x8001
  {
    var file := MarkedFile(ONE_BYTE);
    forall j | 0 <= j < |file|
      ensures ReadByte(ONE_BYTE_MEMORY, (0x20_0000 + j) / 4096, (0x20_0000 + j) % 4096) == file[j]
    {
      var f, o := (0x20_0000 + j) / 4096, (0x20_0000 + j) % 4096;
      ByteOfSmall(Read(ONE_BYTE_MEMORY, f, o / 8), o % 8);
    }
  }

  lemma OneByteAreas()
    ensures AreasOf([ONE_BYTE]) == OneSegment(ONE_BYTE) && AreasFit(OneSegment(ONE_BYTE), 0x10_0000)
    ensures TotalPages(OneSegment(ONE_BYTE), 3) == 2
  {
    hide AreasApart;
    OneSegmentIs(ONE_BYTE);
    OneSegmentApart(ONE_BYTE);
    assert AreaPages(Elf.FileArea(ONE_BYTE)) == 1;
  }

  /** What StartFirstProcess needs is met by this machine and this executable; the process that it makes
      finds a one at 0x401000, and the file has a zero there. */
  lemma SomeFirstProcessGoesWrong(y: System)
    ensures var (smap, file, areas) := ([Smap(0, 0x800_0000, 1)], MarkedFile(ONE_BYTE), AreasOf([ONE_BYTE]));
            && CanStart(ONE_BYTE_MEMORY, smap, 0x20_0000, 0x30_0000) && FileAt(ONE_BYTE_MEMORY, 0x20_0000, file)
            && 0x20_0000 + |file| <= 0x30_0000 && AreasFit(areas, 0x10_0000)
            && EnoughFrames(smap, 0x20_0000, 0x30_0000, areas)
            && file[0x1000] == 0
            && (AllSegments(y, areas, 0x20_0000, file) ==>
                  && CanCreateProcess(y, areas, KERNBASE + 0x20_0000)
                  && MappedByte(Created(y, areas, KERNBASE + 0x20_0000), NewRoot(y), 0x40_1000) == 1)
  {
    hide CanStart, FileAt, AreasFit, AreasOf, CanCreateProcess, Created, NewRoot, MappedByte, CreatedFrom, OneSegment;
    hide FoundIn, BootDirs, ListPages, TotalPages;
    OneByteFile();
    OneByteAreas();
    OneByteLoadable();
    SomeMachineStarts(ONE_BYTE_MEMORY);
    if AllSegments(y, AreasOf([ONE_BYTE]), 0x20_0000, MarkedFile(ONE_BYTE)) {
      SegmentGoesWrong(y, AreasOf([ONE_BYTE]), KERNBASE + 0x20_0000, 0, ONE_BYTE);
    }
  }

  lemma OneByteLoadable()
    ensures Loadable(OneSegment(ONE_BYTE), 0, ONE_BYTE) && |OneSegment(ONE_BYTE)| == 3
  {
  }
}
