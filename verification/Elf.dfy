/** sys/elf64.c: the program headers of an executable become a list of memory areas. */
module Elf {
  import opened Words

  const PT_LOAD: nat := 1

  /** A program header, as far as it is read. */
  datatype Phdr = Phdr(kind: nat, offset: Word, vaddr: Word, filesz: Word, memsz: Word)

  datatype AreaKind = TYPE_FILE | TYPE_STACK | TYPE_HEAP

  datatype Area = Area(start: Word, end: Word, offset: Word, kind: AreaKind)

  class Vma {
    var vmStart: Word
    var vmEnd: Word
    var vmOffset: Word
    var vmType: AreaKind
    var vmNext: Vma?

    /** A freshly allocated structure, filled in. */
    constructor (start: Word, end: Word, offset: Word, kind: AreaKind)
      ensures AsArea() == Area(start, end, offset, kind) && vmNext == null
    {
      vmStart, vmEnd, vmOffset, vmType, vmNext := start, end, offset, kind, null;
    }

    function AsArea(): Area
      reads this
    {
      Area(vmStart, vmEnd, vmOffset, vmType)
    }
  }

  /** mm_struct, as far as it is used: the list of areas, and where the executable starts and lies. */
  class Mm {
    const mmap: Vma
    const eEntry: Word
    const elfHead: Word

    constructor (mmap: Vma, eEntry: Word, elfHead: Word)
      ensures this.mmap == mmap && this.eEntry == eEntry && this.elfHead == elfHead
    {
      this.mmap, this.eEntry, this.elfHead := mmap, eEntry, elfHead;
    }
  }

  /** p_vaddr + p_memsz in 64 bits. */
  function Sum(a: Word, b: Word): Word {
    (a + b) % 0x1_0000_0000_0000_0000
  }

  function FileArea(h: Phdr): Area {
    Area(h.vaddr, Sum(h.vaddr, h.memsz), h.offset, TYPE_FILE)
  }

  const STACK: Area := Area(0, 0, 0, TYPE_STACK)
  const HEAP: Area := Area(0, 0, 0, TYPE_HEAP)

  /** The areas of the loadable segments, in order. */
  function FileAreas(hs: seq<Phdr>): seq<Area> {
    if hs == [] then []
    else FileAreas(hs[..|hs| - 1]) + (if hs[|hs| - 1].kind == PT_LOAD then [FileArea(hs[|hs| - 1])] else [])
  }

  /** Whether `list` is linked by vmNext, ends there, and holds these areas. */
  ghost predicate Holds(list: seq<Vma>, areas: seq<Area>)
    reads list
  {
    && |list| == |areas|
    && (forall i {:trigger list[i].AsArea()} :: 0 <= i < |list| ==> list[i].AsArea() == areas[i])
    && (forall i {:trigger list[i].vmNext} :: 0 <= i < |list| - 1 ==> list[i].vmNext == list[i + 1])
    && (list != [] ==> list[|list| - 1].vmNext == null)
    && (forall i, j :: 0 <= i < j < |list| ==> list[i] != list[j])
  }

  /** Linking a new area behind the last one. */
  method Append(ghost list: seq<Vma>, ghost areas: seq<Area>, head: Vma?, last: Vma?, vma: Vma)
      returns (head': Vma, ghost list': seq<Vma>)
    requires Holds(list, areas) && (if list == [] then head == null else head == list[0] && last == list[|list| - 1])
    requires vma !in list && vma.vmNext == null
    modifies list
    ensures list' == list + [vma] && head' == list'[0] && Holds(list', areas + [vma.AsArea()])
    ensures vma.AsArea() == old(vma.AsArea())
  {
    list' := list + [vma];
    if head == null {
      head' := vma;
    } else {
      last.vmNext := vma;
      head' := head;
    }
    assert forall i :: 0 <= i < |list| ==> list'[i].AsArea() == old(list[i].AsArea());
  }

  /** The loop of load_elf_vmas over the program headers. */
  method Segments(phdrs: seq<Phdr>) returns (head: Vma?, last: Vma?, ghost list: seq<Vma>)
    ensures fresh(list) && Holds(list, FileAreas(phdrs))
    ensures if list == [] then head == null else head == list[0] && last == list[|list| - 1]
  {
    list, head, last := [], null, null;
    for i := 0 to |phdrs|
      invariant fresh(list) && Holds(list, FileAreas(phdrs[..i]))
      invariant if list == [] then head == null else head == list[0] && last == list[|list| - 1]
    {
      var phdr := phdrs[i];
      assert phdrs[..i + 1][..i] == phdrs[..i];
      if phdr.kind == PT_LOAD {
        var vma := new Vma(phdr.vaddr, Sum(phdr.vaddr, phdr.memsz), phdr.offset, TYPE_FILE);
        head, list := Append(list, FileAreas(phdrs[..i]), head, last, vma);
        last := vma;
      }
    }
    assert phdrs[..|phdrs|] == phdrs;
  }

  /** Where the area of a loadable segment is in the list. */
  lemma {:induction false} AreaOfSegment(hs: seq<Phdr>, k: nat) returns (i: nat)
    requires k < |hs| && hs[k].kind == PT_LOAD
    ensures i < |FileAreas(hs)|
    ensures FileAreas(hs)[i]
            == Area(hs[k].vaddr, (hs[k].vaddr + hs[k].memsz) % 0x1_0000_0000_0000_0000, hs[k].offset, TYPE_FILE)
    decreases |hs|
  {
    var n: nat := |hs| - 1;
    if k == n {
      i := |FileAreas(hs[..n])|;
    } else {
      i := AreaOfSegment(hs[..n], k);
    }
  }

  /** Some area of the list is that of the segment: from p_vaddr to p_vaddr + p_memsz. */
  ghost predicate HasSegment(list: seq<Vma>, h: Phdr)
    reads list
  {
    exists i :: 0 <= i < |list| && list[i].vmStart == h.vaddr && list[i].vmOffset == h.offset
                && list[i].vmEnd == (h.vaddr + h.memsz) % 0x1_0000_0000_0000_0000 && list[i].vmType == TYPE_FILE
  }

  lemma {:induction false} SegmentListed(list: seq<Vma>, phdrs: seq<Phdr>, k: nat)
    requires Holds(list, FileAreas(phdrs) + [STACK, HEAP]) && k < |phdrs| && phdrs[k].kind == 1
    ensures HasSegment(list, phdrs[k])
  {
    var i := AreaOfSegment(phdrs, k);
    assert list[i].AsArea() == (FileAreas(phdrs) + [STACK, HEAP])[i];
  }

  /** load_elf_vmas, of an executable at ehdr: one area for each loadable segment, in order, then the
      stack and the heap; and the entry point and place of the executable. */
  method LoadElfVmas(ehdr: Word, entry: Word, phdrs: seq<Phdr>) returns (mm: Mm, ghost list: seq<Vma>)
    ensures fresh(mm) && fresh(list) && list != [] && mm.mmap == list[0]
    ensures Holds(list, FileAreas(phdrs) + [STACK, HEAP])
    ensures mm.eEntry == entry && mm.elfHead == ehdr
    ensures forall k :: 0 <= k < |phdrs| && phdrs[k].kind == 1 ==> HasSegment(list, phdrs[k])
  {
    hide FileAreas, Sum;
    ghost var areas := FileAreas(phdrs);
    var vmaHead: Vma?, vmaNext: Vma?;
    vmaHead, vmaNext, list := Segments(phdrs);
    var stack := new Vma(0, 0, 0, TYPE_STACK);
    vmaHead, list := Append(list, areas, vmaHead, vmaNext, stack);
    var heap := new Vma(0, 0, 0, TYPE_HEAP);
    var head: Vma;
    head, list := Append(list, areas + [STACK], vmaHead, stack, heap);
    assert areas + [STACK] + [HEAP] == areas + [STACK, HEAP];
    mm := new Mm(head, entry, ehdr);
    forall k | 0 <= k < |phdrs| && phdrs[k].kind == 1
      ensures HasSegment(list, phdrs[k])
    {
      SegmentListed(list, phdrs, k);
    }
  }

  /** check_elf_loadable: whether there is a segment to load. */
  method CheckElfLoadable(phdrs: seq<Phdr>) returns (r: nat)
    ensures r <= 1
    ensures r == 1 <==> exists i :: 0 <= i < |phdrs| && phdrs[i].kind == PT_LOAD
    ensures r == 0 <==> FileAreas(phdrs) == []
  {
    for i := 0 to |phdrs|
      invariant forall j :: 0 <= j < i ==> phdrs[j].kind != PT_LOAD
      invariant FileAreas(phdrs[..i]) == []
    {
      assert phdrs[..i + 1][..i] == phdrs[..i];
      if phdrs[i].kind == PT_LOAD {
        SomeArea(phdrs, i);
        return 1;
      }
    }
    assert phdrs[..|phdrs|] == phdrs;
    return 0;
  }

  lemma {:induction false} SomeArea(hs: seq<Phdr>, i: nat)
    requires i < |hs| && hs[i].kind == PT_LOAD
    ensures FileAreas(hs) != []
    decreases |hs|
  {
    if i < |hs| - 1 {
      SomeArea(hs[..|hs| - 1], i);
    }
  }
}
