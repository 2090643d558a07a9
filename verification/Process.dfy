/** sys/task.c: create_process builds an address space and fills it from an executable. */
module Process {
  import opened Words
  import opened Mmu
  import opened PageTree
  import opened AddressSpace
  import opened Mapping
  import opened Ranges
  import opened Spaces
  import opened Paging
  import opened Heap
  import opened FreeList
  import opened Runs
  import opened Bytes
  import opened CString
  import Elf

  // ---- Filling frames with bytes ----

  /** The memory after the bytes bs have been written to the frames fs, one after the other. */
  function Filled(m: Memory, fs: seq<nat>, bs: seq<Byte>): Memory
    requires |bs| <= 4096 * |fs|
  {
    if bs == [] then m
    else
      var i: nat := |bs| - 1;
      WriteByte(Filled(m, fs, bs[..i]), fs[i / 4096], i % 4096, bs[i])
  }

  ghost predicate Different(fs: seq<nat>) {
    forall i, j :: 0 <= i < j < |fs| ==> fs[i] != fs[j]
  }

  /** Each byte is found where it was put, and frames outside fs keep theirs. */
  lemma {:induction false} FilledAt(m: Memory, fs: seq<nat>, bs: seq<Byte>, i: nat)
    requires |bs| <= 4096 * |fs| && Different(fs) && i < |bs|
    ensures ReadByte(Filled(m, fs, bs), fs[i / 4096], i % 4096) == bs[i]
    decreases |bs|
  {
    hide ReadByte, WriteByte;
    var k: nat := |bs| - 1;
    WriteByteAt(Filled(m, fs, bs[..k]), fs[k / 4096], k % 4096, bs[k], fs[i / 4096], i % 4096);
    if i < k {
      FilledAt(m, fs, bs[..k], i);
      assert i / 4096 == k / 4096 ==> i % 4096 != k % 4096;
    }
  }

  lemma {:induction false} FilledElsewhere(m: Memory, fs: seq<nat>, bs: seq<Byte>, f: nat, j: nat)
    requires |bs| <= 4096 * |fs| && f !in fs
    ensures Read(Filled(m, fs, bs), f, j) == Read(m, f, j)
    decreases |bs|
  {
    hide WithByte;
    if bs != [] {
      FilledElsewhere(m, fs, bs[..|bs| - 1], f, j);
    }
  }

  function FillSystem(y: System, fs: seq<nat>, bs: seq<Byte>): System
    requires |bs| <= 4096 * |fs|
  {
    y.(space := y.space.(mem := Filled(y.space.mem, fs, bs)))
  }

  /** Filling data frames keeps the invariant, every path and every data frame. */
  lemma {:induction false} FillKeeps(y: System, fs: seq<nat>, bs: seq<Byte>)
    requires Good(y) && |bs| <= 4096 * |fs| && forall j :: 0 <= j < |fs| ==> DataFrame(y.space, fs[j])
    ensures Good(FillSystem(y, fs, bs))
    ensures forall q, u: Trail {:trigger Follow(Filled(y.space.mem, fs, bs), q, u)} ::
            IsRoot(y.space.tables, q) && u.Legal() && u.Depth() == 4 && u.Direct() ==>
              Follow(Filled(y.space.mem, fs, bs), q, u) == Follow(y.space.mem, q, u)
    decreases |bs|
  {
    hide Good, DataFrame, Step, WithByte, Follow;
    if bs == [] {
      NothingFilled(y, fs);
    } else {
      var i: nat := |bs| - 1;
      FillKeeps(y, fs, bs[..i]);
      var y1 := FillSystem(y, fs, bs[..i]);
      var op := WriteData(fs[i / 4096], i % 4096 / 8,
                          WithByte(Read(y1.space.mem, fs[i / 4096], i % 4096 / 8), i % 4096 % 8, bs[i]));
      SameDataFrames(y.space, y1.space);
      StepOutcome(y1, op);
      WriteMovesNone(y1, op);
      assert FillSystem(y, fs, bs) == Do(y1, op);
    }
  }

  lemma NothingFilled(y: System, fs: seq<nat>)
    ensures FillSystem(y, fs, []) == y && Filled(y.space.mem, fs, []) == y.space.mem
  {
  }

  lemma SameDataFrames(s: Space, s': Space)
    requires s' == s.(mem := s'.mem)
    ensures forall f :: DataFrame(s, f) <==> DataFrame(s', f)
  {
  }

  lemma WriteMovesNone(y: System, op: Op)
    requires op.WriteData? && Enabled(y, op) && Step(y, Do(y, op), op)
    ensures forall q, u: Trail {:trigger Follow(Do(y, op).space.mem, q, u)} ::
            IsRoot(y.space.tables, q) && u.Legal() && u.Depth() == 4 && u.Direct() ==>
              Follow(Do(y, op).space.mem, q, u) == Follow(y.space.mem, q, u)
  {
    hide Follow;
    forall q, u: Trail | IsRoot(y.space.tables, q) && u.Legal() && u.Depth() == 4 && u.Direct()
      ensures Follow(Do(y, op).space.mem, q, u) == Follow(y.space.mem, q, u)
    {
      assert Kept(y, Do(y, op), op, q, u);
    }
  }

  // ---- What an address space that exists keeps while another is built ----

  /** Frame f holds the same data. */
  ghost predicate SameData(s: Space, s': Space, f: nat) {
    DataFrame(s', f) && forall i :: Read(s'.mem, f, i) == Read(s.mem, f, i)
  }

  predicate SamePath(m: Memory, m': Memory, q: nat, u: Trail) {
    Follow(m, q, u).Some? ==> Follow(m', q, u) == Follow(m, q, u)
  }

  /** From y to y' the invariant holds on; tables, data, mapped pages and the kernel's PML4 stay. */
  ghost predicate Carries(y: System, y': System) {
    && Good(y') && y'.space.kroot == y.space.kroot
    && (forall f :: f in y.space.tables ==> f in y'.space.tables && y'.space.tables[f] == y.space.tables[f])
    && (forall f {:trigger SameData(y.space, y'.space, f)} :: DataFrame(y.space, f) ==> SameData(y.space, y'.space, f))
    && (forall q, u: Trail {:trigger SamePath(y.space.mem, y'.space.mem, q, u)} ::
          IsRoot(y.space.tables, q) && u.Legal() && u.Depth() == 4 && u.Direct() ==>
            SamePath(y.space.mem, y'.space.mem, q, u))
  }

  lemma CarriesThen(y: System, y1: System, y2: System)
    requires Carries(y, y1) && Carries(y1, y2)
    ensures Carries(y, y2)
  {
    hide Good, DataFrame, Follow;
    forall f | DataFrame(y.space, f)
      ensures SameData(y.space, y2.space, f)
    {
      assert SameData(y.space, y1.space, f) && SameData(y1.space, y2.space, f);
    }
    forall q, u: Trail | IsRoot(y.space.tables, q) && u.Legal() && u.Depth() == 4 && u.Direct()
      ensures SamePath(y.space.mem, y2.space.mem, q, u)
    {
      assert SamePath(y.space.mem, y1.space.mem, q, u) && SamePath(y1.space.mem, y2.space.mem, q, u);
    }
  }

  /** The PML4 in use does not matter. */
  lemma RootCarries(y: System, q: nat)
    requires Good(y) && IsRoot(y.space.tables, q)
    ensures Carries(y, y.(root := q))
  {
    hide DataFrame, Follow;
    forall f | DataFrame(y.space, f)
      ensures SameData(y.space, y.space, f)
    {
    }
  }

  lemma PathsCarry(y: System, op: Op)
    requires Good(y) && Enabled(y, op) && Step(y, Do(y, op), op)
    ensures forall q, u: Trail {:trigger SamePath(y.space.mem, Do(y, op).space.mem, q, u)} ::
          IsRoot(y.space.tables, q) && u.Legal() && u.Depth() == 4 && u.Direct() ==>
            SamePath(y.space.mem, Do(y, op).space.mem, q, u)
  {
    hide Good, Do, Enabled, Changed, Follow;
    forall q, u: Trail | IsRoot(y.space.tables, q) && u.Legal() && u.Depth() == 4 && u.Direct()
      ensures SamePath(y.space.mem, Do(y, op).space.mem, q, u)
    {
      assert Kept(y, Do(y, op), op, q, u);
      if Changed(y, op, q, u) {
        ChangedWasFree(y, op, q, u);
      }
    }
  }

  lemma DataCarries(s: Space, s': Space)
    requires Extends(s, s') && NewTablesTaken(s, s')
    ensures forall f {:trigger SameData(s, s', f)} :: DataFrame(s, f) ==> SameData(s, s', f)
    ensures forall f :: f in s.tables ==> f in s'.tables && s'.tables[f] == s.tables[f]
  {
    forall f | DataFrame(s, f)
      ensures SameData(s, s', f)
    {
      DataFrameKept(s, s', f);
    }
  }

  /** Mapping user pages carries everything over. */
  lemma MapCarries(y: System, v: Word, n: nat)
    requires Good(y) && Enabled(y, MapUser(v, n))
    ensures Carries(y, Do(y, MapUser(v, n)))
  {
    hide Good, Allocated, RunFrames, DataFrame, Follow, Changed, Page, RunChange, UserOk, Inv, FreePrefix, CanAllocate;
    var op := MapUser(v, n);
    StepOutcome(y, op);
    PathsCarry(y, op);
    AllocatedOutcome(y.space, y.root, v, n, PAGE_USER);
    DataCarries(y.space, Do(y, op).space);
  }

  /** So does a heap allocation. */
  lemma AllocateCarries(y: System, n: nat, flags: Word)
    requires Good(y) && Enabled(y, Allocate(n, flags))
    ensures Carries(y, Do(y, Allocate(n, flags)))
  {
    hide Good, MapRun, RunFrames, DataFrame, Follow, Changed, Page, RunChange, UserOk, Inv;
    var op := Allocate(n, flags);
    StepOutcome(y, op);
    PathsCarry(y, op);
    OpRun(y, op);
    RunOutcome(y.space, y.root, y.top, n, flags);
    DataCarries(y.space, Do(y, op).space);
  }

  /** And the creation of an address space. */
  lemma CreateCarries(y: System, flags: Word)
    requires Good(y) && Enabled(y, CreateSpace(flags))
    ensures Carries(y, Do(y, CreateSpace(flags)))
    ensures var p := HeadFrame(y.space); var s := Do(y, CreateSpace(flags)).space;
            IsRoot(s.tables, p) && s.tables[p].user == (flags == PAGE_USER)
  {
    hide Good, MapNext, AddSpace, Follow, Changed, Page, PathChange, UserOk, Inv, DataFrame;
    var op := CreateSpace(flags);
    StepOutcome(y, op);
    PathsCarry(y, op);
    CreateStep(y, flags);
    CreateMaps(y, flags);
    var s, p, s1, s2 := y.space, HeadFrame(y.space), MapNext(y.space, y.root, y.top, flags), Do(y, op).space;
    DataCarries(s, s1);
    AddSpaceOutcome(s1, p, flags);
    NewFrame(s, s1, p);
    forall f | DataFrame(s, f)
      ensures SameData(s, s2, f)
    {
      assert SameData(s, s1, f);
      AddedElsewhere(s, s1, s2, p, f, flags == PAGE_USER);
    }
  }

  /** The frame of the new PML4 was neither a table nor a data frame. */
  lemma NewFrame(s: Space, s1: Space, p: nat)
    requires Extends(s, s1) && DataFrame(s1, p) && !OffList(s, p)
    ensures p !in s.tables && !DataFrame(s, p)
  {
  }

  lemma AddedElsewhere(s: Space, s1: Space, s2: Space, p: nat, f: nat, user: bool)
    requires SpaceAdded(s1, s2, p, user) && DataFrame(s, f) && !DataFrame(s, p) && SameData(s, s1, f)
    ensures SameData(s, s2, f)
  {
  }

  // ---- Loading one area ----

  /** The frame behind an address. */
  function FrameOf(m: Memory, r: nat, v: Word): nat {
    match Follow(m, r, Page(v))
    case None => 0
    case Some(f) => f
  }

  function AddressAt(v: Word, i: nat): Word {
    if v + i < WORD_LIMIT then v + i else 0
  }

  /** The byte that the kernel reads at src + i. */
  function SourceByte(y: System, src: Word, i: nat): Byte {
    ReadByte(y.space.mem, FrameOf(y.space.mem, y.space.kroot, AddressAt(src, i)), AddressAt(src, i) % 4096)
  }

  function SourceBytes(y: System, src: Word, n: nat): (bs: seq<Byte>)
    ensures |bs| == n && forall i :: 0 <= i < n ==> bs[i] == SourceByte(y, src, i)
  {
    seq(n, i requires 0 <= i < n => SourceByte(y, src, i))
  }

  ghost predicate SourceAt(y: System, src: Word, i: nat) {
    var u := Page(AddressAt(src, i));
    Follow(y.space.mem, y.space.kroot, u).Some? && DataFrame(y.space, Follow(y.space.mem, y.space.kroot, u).value)
  }

  /** The source lies in the shared half, in frames that are in use for data. */
  ghost predicate SourceOk(y: System, src: Word, n: nat) {
    && src >= KERNBASE && src + n <= WORD_LIMIT
    && forall i {:trigger SourceAt(y, src, i)} :: 0 <= i < n ==> SourceAt(y, src, i)
  }

  /** Source bytes do not change while everything is carried over. */
  lemma SourceCarries(y: System, y': System, src: Word, n: nat)
    requires Good(y) && Carries(y, y') && SourceOk(y, src, n)
    ensures SourceOk(y', src, n) && SourceBytes(y', src, n) == SourceBytes(y, src, n)
  {
    forall i | 0 <= i < n
      ensures SourceAt(y', src, i) && SourceByte(y', src, i) == SourceByte(y, src, i)
    {
      OneSourceByte(y, y', src, n, i);
    }
  }

  lemma OneSourceByte(y: System, y': System, src: Word, n: nat, i: nat)
    requires Good(y) && Carries(y, y') && SourceOk(y, src, n) && i < n
    ensures SourceAt(y', src, i) && SourceByte(y', src, i) == SourceByte(y, src, i)
  {
    hide Good, DataFrame, Follow, Page, ByteOfWord;
    assert SourceAt(y, src, i);
    RootOfGoodSystem(y);
    var v := AddressAt(src, i);
    KernelAddress(v);
    var u := Page(v);
    assert SamePath(y.space.mem, y'.space.mem, y.space.kroot, u);
    assert SameData(y.space, y'.space, Follow(y.space.mem, y.space.kroot, u).value);
  }

  lemma RootOfGoodSystem(y: System)
    requires Good(y)
    ensures IsRoot(y.space.tables, y.space.kroot) && TreeOk(y.space.mem, y.space.tables, y.space.kroot)
  {
    RootOfGood(y);
  }

  /** Byte i of bs is found at v + i by root p. */
  ghost predicate ByteLoaded(y: System, p: nat, v: Word, bs: seq<Byte>, i: nat)
    requires i < |bs|
  {
    var u, a := Page(AddressAt(v, i)), AddressAt(v, i);
    && Follow(y.space.mem, p, u).Some? && DataFrame(y.space, Follow(y.space.mem, p, u).value)
    && ReadByte(y.space.mem, Follow(y.space.mem, p, u).value, a % 4096) == bs[i]
  }

  ghost predicate Loaded(y: System, p: nat, v: Word, bs: seq<Byte>) {
    v + |bs| < WORD_LIMIT
    && (forall i :: 0 <= i < |bs| ==> Canonical(AddressAt(v, i)) && I4(AddressAt(v, i)) < SELF)
    && forall i {:trigger ByteLoaded(y, p, v, bs, i)} :: 0 <= i < |bs| ==> ByteLoaded(y, p, v, bs, i)
  }

  /** What has been loaded stays. */
  lemma LoadedCarries(y: System, y': System, p: nat, v: Word, bs: seq<Byte>)
    requires Carries(y, y') && IsRoot(y.space.tables, p) && Loaded(y, p, v, bs)
    ensures Loaded(y', p, v, bs)
  {
    forall i | 0 <= i < |bs|
      ensures ByteLoaded(y', p, v, bs, i)
    {
      OneLoadedByte(y, y', p, v, bs, i);
    }
  }

  lemma OneLoadedByte(y: System, y': System, p: nat, v: Word, bs: seq<Byte>, i: nat)
    requires Carries(y, y') && IsRoot(y.space.tables, p) && Loaded(y, p, v, bs) && i < |bs|
    ensures ByteLoaded(y', p, v, bs, i)
  {
    hide Good, DataFrame, Follow, Page, ByteOfWord;
    assert ByteLoaded(y, p, v, bs, i);
    var u := Page(AddressAt(v, i));
    assert SamePath(y.space.mem, y'.space.mem, p, u);
    assert SameData(y.space, y'.space, Follow(y.space.mem, p, u).value);
  }

  /** What has been loaded into a user address space is open to user code, at all four levels. */
  lemma LoadedIsUser(y: System, p: nat, v: Word, bs: seq<Byte>, i: nat)
    requires Good(y) && IsRoot(y.space.tables, p) && y.space.tables[p].user && Loaded(y, p, v, bs) && i < |bs|
    ensures UserAccess(y.space.mem, p, AddressAt(v, i))
  {
    hide Page, Follow;
    assert ByteLoaded(y, p, v, bs, i);
    RootOfGoodSystem(y);
    MappedIsUser(y.space.mem, y.space.tables, y.space.kroot, p, Page(AddressAt(v, i)));
  }

  /** Whether n pages from v can be loaded into root p with the bytes from src on. */
  ghost predicate CanLoad(y: System, p: nat, v: Word, n: nat, src: Word) {
    && IsRoot(y.space.tables, p) && v % 4096 == 0
    && CanMapRun(y.space, p, v, n, PAGE_USER) && UserRun(v, n)
    && SourceOk(y, src, 4096 * n)
  }

  function AreaFrames(y: System, p: nat, v: Word, n: nat): (fs: seq<nat>)
    ensures |fs| == n
  {
    RunFrames(y.space, p, v, n, PAGE_USER)
  }

  /** The system after n pages have been mapped from v for root p and filled from src. */
  ghost function AfterLoad(y: System, p: nat, v: Word, n: nat, src: Word): System
    requires CanLoad(y, p, v, n, src)
  {
    FillSystem(Do(y.(root := p), MapUser(v, n)), AreaFrames(y, p, v, n), SourceBytes(y, src, 4096 * n)).(root := y.root)
  }

  /** Mapping gives different data frames, none of which was in use before. */
  lemma AreaMapped(y: System, p: nat, v: Word, n: nat)
    requires Good(y) && IsRoot(y.space.tables, p) && CanMapRun(y.space, p, v, n, PAGE_USER) && UserRun(v, n)
    ensures var y0 := y.(root := p); var y1 := Do(y0, MapUser(v, n)); var fs := AreaFrames(y, p, v, n);
            && Good(y0) && Enabled(y0, MapUser(v, n)) && Carries(y, y1) && Different(fs)
            && (forall j :: 0 <= j < n ==> DataFrame(y1.space, fs[j]) && !DataFrame(y.space, fs[j]))
            && (forall j :: 0 <= j < n ==> Follow(y1.space.mem, p, Page(PageAt(v, j))) == Some(fs[j]))
  {
    hide MapRun, RunFrames, Follow, Page, Good, Inv, DataFrame, Do, CanMapRun, Carries;
    var y0, op, fs := y.(root := p), MapUser(v, n), AreaFrames(y, p, v, n);
    GoodRoot(y, p);
    DoesMap(y, p, v, n);
    var y1 := Do(y0, op);
    RootCarries(y, p);
    MapCarries(y0, v, n);
    CarriesThen(y, y0, y1);
    forall j | 0 <= j < n
      ensures DataFrame(y1.space, fs[j]) && !DataFrame(y.space, fs[j])
      ensures Follow(y1.space.mem, p, Page(PageAt(v, j))) == Some(fs[j])
    {
      PageOfStep(y0, op, j);
      OnListIsNoData(y.space, fs[j]);
      AreaPage(y, p, v, n, j);
    }
    forall i, j | 0 <= i < j < n
      ensures fs[i] != fs[j]
    {
      PagesOfStepDiffer(y0, op, i, j);
    }
  }

  /** Over free pages the allocation loop maps all of them. */
  lemma AllFreeIsRun(s: Space, r: nat, v: Word, n: nat)
    requires CanMapRun(s, r, v, n, PAGE_USER)
    ensures CanAllocate(s, r, v, n, PAGE_USER) && FreePrefix(s.mem, r, v, n) == n
    ensures Allocated(s, r, v, n, PAGE_USER) == MapRun(s, r, v, n, PAGE_USER)
    ensures AllocatedFrames(s, r, v, n, PAGE_USER) == RunFrames(s, r, v, n, PAGE_USER)
  {
    hide MapRun, RunFrames, Inv, Follow, Page;
    assert FreePrefix(s.mem, r, v, n) == n;
  }

  lemma DoesMap(y: System, p: nat, v: Word, n: nat)
    requires IsRoot(y.space.tables, p) && CanMapRun(y.space, p, v, n, PAGE_USER) && UserRun(v, n)
    ensures Enabled(y.(root := p), MapUser(v, n))
    ensures Pages(y.(root := p), MapUser(v, n)) == AreaFrames(y, p, v, n)
    ensures Do(y.(root := p), MapUser(v, n)) == y.(root := p, space := MapRun(y.space, p, v, n, PAGE_USER))
  {
    hide MapRun, RunFrames, CanMapRun, CanAllocate, Allocated, AllocatedFrames;
    AllFreeIsRun(y.space, p, v, n);
  }

  lemma GoodRoot(y: System, p: nat)
    requires Good(y) && IsRoot(y.space.tables, p)
    ensures Good(y.(root := p))
  {
  }

  lemma OnListIsNoData(s: Space, f: nat)
    requires !OffList(s, f)
    ensures !DataFrame(s, f)
  {
  }

  lemma AreaPage(y: System, p: nat, v: Word, n: nat, j: nat)
    requires CanMapRun(y.space, p, v, n, PAGE_USER) && j < n
    ensures var y1 := MapRun(y.space, p, v, n, PAGE_USER);
            Follow(y1.mem, p, Page(PageAt(v, j))) == Some(AreaFrames(y, p, v, n)[j])
  {
    hide MapRun, RunFrames, Follow, Page, Inv;
    var fs, u := RunFrames(y.space, p, v, n, PAGE_USER), Page(PageAt(v, j));
    RunOutcome(y.space, p, v, n, PAGE_USER);
    PlacedAt(v, fs, n, u);
    assert RunChange(y.space.mem, MapRun(y.space, p, v, n, PAGE_USER).mem, p, v, fs, p, u);
  }

  /** Filling the new pages keeps everything that was there before the area was mapped. */
  lemma FillCarries(y: System, y1: System, fs: seq<nat>, bs: seq<Byte>)
    requires Good(y) && Carries(y, y1) && |bs| <= 4096 * |fs|
    requires forall j :: 0 <= j < |fs| ==> DataFrame(y1.space, fs[j]) && !DataFrame(y.space, fs[j])
    ensures Carries(y, FillSystem(y1, fs, bs))
  {
    hide Good, DataFrame, Follow, WithByte;
    CarriedIsGood(y, y1);
    FillKeeps(y1, fs, bs);
    var y2 := FillSystem(y1, fs, bs);
    SameDataFrames(y1.space, y2.space);
    forall f | DataFrame(y.space, f)
      ensures SameData(y.space, y2.space, f)
    {
      assert SameData(y.space, y1.space, f);
      assert f !in fs;
      forall i
        ensures Read(y2.space.mem, f, i) == Read(y.space.mem, f, i)
      {
        if i >= 0 { FilledElsewhere(y1.space.mem, fs, bs, f, i); }
      }
    }
    forall q, u: Trail | IsRoot(y.space.tables, q) && u.Legal() && u.Depth() == 4 && u.Direct()
      ensures SamePath(y.space.mem, y2.space.mem, q, u)
    {
      assert SamePath(y.space.mem, y1.space.mem, q, u);
      assert Follow(Filled(y1.space.mem, fs, bs), q, u) == Follow(y1.space.mem, q, u);
    }
  }

  lemma CarriedIsGood(y: System, y1: System)
    requires Carries(y, y1)
    ensures Good(y1)
  {
  }

  /** Address v + i lies in page i div 4096 of the run from v. */
  lemma AddressInRun(v: Word, n: nat, i: nat)
    requires v % 4096 == 0 && GoodRun(v, n) && i < 4096 * n
    ensures i / 4096 < n && AddressAt(v, i) % 4096 == i % 4096 && Page(AddressAt(v, i)) == Page(PageAt(v, i / 4096))
    ensures Canonical(AddressAt(v, i)) && I4(AddressAt(v, i)) == I4(PageAt(v, i / 4096))
  {
    var a, w := AddressAt(v, i), PageAt(v, i / 4096);
    assert a == v + i && w == v + 4096 * (i / 4096);
    DivModUnique(a, 4096, v / 4096 + i / 4096, i % 4096);
    assert w / 4096 == v / 4096 + i / 4096;
    SamePage(a, w);
    assert Page(a).Head() == Page(w).Head();
    assert Canonical(w);
  }

  /** The outcome of loading: everything carried over, the PML4 in use restored, and every byte of
      the pages equal to the byte of the source. */
  lemma LoadOutcome(y: System, p: nat, v: Word, n: nat, src: Word)
    requires Good(y) && CanLoad(y, p, v, n, src)
    ensures var y' := AfterLoad(y, p, v, n, src);
            Carries(y, y') && y'.root == y.root && y'.top == y.top && Loaded(y', p, v, SourceBytes(y, src, 4096 * n))
  {
    hide Good, DataFrame, Follow, WithByte, MapRun, RunFrames, CanMapRun, Carries, ByteLoaded, Do, SourceOk, UserRun;
    var y0, fs, bs := y.(root := p), AreaFrames(y, p, v, n), SourceBytes(y, src, 4096 * n);
    CanLoadRun(y, p, v, n, src);
    AreaMapped(y, p, v, n);
    DoesMap(y, p, v, n);
    var y1 := Do(y0, MapUser(v, n));
    var y2 := FillSystem(y1, fs, bs);
    FillCarries(y, y1, fs, bs);
    CarriedIsGood(y, y1);
    CarriedIsGood(y, y2);
    RootStays(y, y2, y.root);
    RootCarries(y2, y.root);
    CarriesThen(y, y2, y2.(root := y.root));
    var y' := AfterLoad(y, p, v, n, src);
    assert y' == y2.(root := y.root);
    forall i | 0 <= i < |bs|
      ensures ByteLoaded(y', p, v, bs, i)
      ensures Canonical(AddressAt(v, i)) && I4(AddressAt(v, i)) < SELF
    {
      AddressInRun(v, n, i);
      UserPage(v, n, i / 4096);
      LoadedByte(y1, y', p, v, fs, bs, i);
    }
  }

  lemma CanLoadRun(y: System, p: nat, v: Word, n: nat, src: Word)
    requires CanLoad(y, p, v, n, src)
    ensures CanMapRun(y.space, p, v, n, PAGE_USER) && UserRun(v, n) && GoodRun(v, n) && v % 4096 == 0
    ensures IsRoot(y.space.tables, p) && v + 4096 * n < WORD_LIMIT && SourceOk(y, src, 4096 * n)
  {
  }

  lemma RootStays(y: System, y': System, r: nat)
    requires Good(y) && Carries(y, y') && (r == y.root || IsRoot(y.space.tables, r))
    ensures IsRoot(y'.space.tables, r)
  {
  }

  lemma UserPage(v: Word, n: nat, j: nat)
    requires UserRun(v, n) && j < n
    ensures I4(PageAt(v, j)) < SELF
  {
  }

  lemma LoadedByte(y1: System, y': System, p: nat, v: Word, fs: seq<nat>, bs: seq<Byte>, i: nat)
    requires Good(y1) && IsRoot(y1.space.tables, p) && Different(fs) && |bs| == 4096 * |fs| && i < |bs|
    requires forall j :: 0 <= j < |fs| ==> DataFrame(y1.space, fs[j])
    requires y'.space == FillSystem(y1, fs, bs).space
    requires i / 4096 < |fs| && AddressAt(v, i) % 4096 == i % 4096
    requires Follow(y1.space.mem, p, Page(AddressAt(v, i))) == Some(fs[i / 4096]) && I4(AddressAt(v, i)) < SELF
    ensures ByteLoaded(y', p, v, bs, i)
  {
    hide Good, DataFrame, Follow, WithByte, ReadByte, Filled;
    FillKeeps(y1, fs, bs);
    SameDataFrames(y1.space, y'.space);
    FilledAt(y1.space.mem, fs, bs, i);
    assert Follow(Filled(y1.space.mem, fs, bs), p, Page(AddressAt(v, i))) == Some(fs[i / 4096]);
  }

  // ---- Bytes through the MMU ----

  /** A byte load. */
  method LoadByte(k: Kernel, v: Word, ghost f: nat) returns (b: Byte)
    requires Canonical(v) && Follow(k.mem, k.Pml4(), Page(v)) == Some(f)
    ensures b == ReadByte(k.mem, f, v % 4096)
  {
    var a := Translate(k.mem, k.Pml4(), v).value;
    InFrame(f, v % 4096);
    b := ReadByte(k.mem, a / 4096, a % 4096);
  }

  /** A byte store. */
  method StoreByte(k: Kernel, v: Word, b: Byte, ghost f: nat)
    requires Canonical(v) && Follow(k.mem, k.Pml4(), Page(v)) == Some(f)
    modifies k`mem
    ensures k.mem == WriteByte(old(k.mem), f, v % 4096, b)
  {
    var a := Translate(k.mem, k.Pml4(), v).value;
    InFrame(f, v % 4096);
    k.mem := WriteByte(k.mem, a / 4096, a % 4096, b);
  }

  lemma InFrame(f: nat, d: nat)
    requires d < 4096
    ensures (4096 * f + d) / 4096 == f && (4096 * f + d) % 4096 == d
  {
    DivModUnique(4096 * f + d, 4096, f, d);
  }

  /** The kernel as a system. */
  ghost function SystemOf(k: Kernel): System
    reads k
  {
    System(k.View(), k.Pml4(), k.topVirtualAddress)
  }

  /** What the copy loop finds at step i: where source and target lie, and that the source is intact. */
  lemma CopyStep(y: System, y1: System, p: nat, v: Word, n: nat, src: Word, i: nat)
    requires Good(y) && CanLoad(y, p, v, n, src) && i < 4096 * n && y1 == Do(y.(root := p), MapUser(v, n))
    ensures Enabled(y.(root := p), MapUser(v, n))
    ensures var fs, bs := AreaFrames(y, p, v, n), SourceBytes(y, src, 4096 * n);
            var m := Filled(y1.space.mem, fs, bs[..i]); var a, b := AddressAt(src, i), AddressAt(v, i);
            && Good(FillSystem(y1, fs, bs[..i]))
            && src + i < WORD_LIMIT && v + i < WORD_LIMIT && i / 4096 < n
            && Canonical(a) && Follow(m, p, Page(a)).Some?
               && ReadByte(m, Follow(m, p, Page(a)).value, a % 4096) == bs[i]
            && Canonical(b) && Follow(m, p, Page(b)) == Some(fs[i / 4096]) && b % 4096 == i % 4096
            && Filled(y1.space.mem, fs, bs[..i + 1]) == WriteByte(m, fs[i / 4096], i % 4096, bs[i])
  {
    hide Good, DataFrame, Follow, WithByte, MapRun, RunFrames, CanMapRun;
    hide Carries, Do, SourceOk, UserRun, ReadByte, WriteByte, Filled;
    var fs, bs := AreaFrames(y, p, v, n), SourceBytes(y, src, 4096 * n);
    CanLoadRun(y, p, v, n, src);
    AreaMapped(y, p, v, n);
    FillCarries(y, y1, fs, bs[..i]);
    CarriedIsGood(y, y1);
    CarriedIsGood(y, FillSystem(y1, fs, bs[..i]));
    AddressInRun(v, n, i);
    RootStays(y, y1, p);
    TargetStays(y1, fs, bs[..i], p, v, i);
    UserPage(v, n, i / 4096);
    SourceStays(y, FillSystem(y1, fs, bs[..i]), p, src, 4096 * n, i);
    FilledGrows(y1.space.mem, fs, bs, i);
  }

  lemma FilledGrows(m: Memory, fs: seq<nat>, bs: seq<Byte>, i: nat)
    requires i < |bs| <= 4096 * |fs|
    ensures Filled(m, fs, bs[..i + 1]) == WriteByte(Filled(m, fs, bs[..i]), fs[i / 4096], i % 4096, bs[i])
  {
    hide WriteByte;
    assert bs[..i + 1][..i] == bs[..i];
  }

  lemma TargetStays(y1: System, fs: seq<nat>, bs: seq<Byte>, p: nat, v: Word, i: nat)
    requires Good(y1) && IsRoot(y1.space.tables, p) && |bs| <= 4096 * |fs| && I4(AddressAt(v, i)) != SELF
    requires forall j :: 0 <= j < |fs| ==> DataFrame(y1.space, fs[j])
    ensures Follow(Filled(y1.space.mem, fs, bs), p, Page(AddressAt(v, i)))
            == Follow(y1.space.mem, p, Page(AddressAt(v, i)))
  {
    hide Good, DataFrame, Follow, Filled;
    FillKeeps(y1, fs, bs);
  }

  /** The source byte is where it was, seen from any address space. */
  lemma SourceStays(y: System, y2: System, p: nat, src: Word, n: nat, i: nat)
    requires Good(y) && Carries(y, y2) && SourceOk(y, src, n) && i < n && IsRoot(y.space.tables, p)
    ensures var a, m := AddressAt(src, i), y2.space.mem;
            && Canonical(a) && src + i < WORD_LIMIT && Follow(m, p, Page(a)).Some?
            && ReadByte(m, Follow(m, p, Page(a)).value, a % 4096) == SourceByte(y, src, i)
  {
    hide Good, DataFrame, Follow, Page, ByteOfWord;
    OneSourceByte(y, y2, src, n, i);
    assert SourceAt(y2, src, i);
    KernelAddress(AddressAt(src, i));
    RootStays(y, y2, p);
    CarriedIsGood(y, y2);
    RootOfGoodSystem(y2);
    SharedHalf(y2.space.mem, y2.space.tables, y2.space.kroot, p, Page(AddressAt(src, i)));
  }

  /** Valid, seen through Good: what the kernel's own variables add. */
  predicate Anchored(k: Kernel, s: Space)
    reads k
  {
    && k.freeListHeadKmalloc == KERNBASE + (if s.pos < |s.frames| then NodeAddress(s, s.pos) else 0)
    && k.kernelPml4 == KERNBASE + 4096 * s.kroot
  }

  lemma GoodIsValid(k: Kernel)
    requires Good(SystemOf(k)) && Anchored(k, k.View())
    ensures k.Valid()
  {
  }

  /** The loop that copies bytes one at a time. */
  method CopyBytes(k: Kernel, dst: Word, src: Word, size: nat, ghost y: System, ghost p: nat, ghost n: nat)
    requires Good(y) && CanLoad(y, p, dst, n, src) && size == 4096 * n && k.Pml4() == p
    requires Enabled(y.(root := p), MapUser(dst, n)) && SystemOf(k) == Do(y.(root := p), MapUser(dst, n))
    modifies k`mem
    ensures SystemOf(k)
            == FillSystem(Do(y.(root := p), MapUser(dst, n)), AreaFrames(y, p, dst, n), SourceBytes(y, src, size))
  {
    hide Good, CanLoad, Do, Enabled, Filled, WriteByte, ReadByte, Follow, Page, RunFrames, SourceBytes, Canonical;
    ghost var y1, fs, bs := SystemOf(k), AreaFrames(y, p, dst, n), SourceBytes(y, src, size);
    var address: nat, offset: nat := dst, src;
    var i: nat := 0;
    NothingFilled(y1, fs);
    assert bs[..0] == [];
    while i < size
      invariant i <= size && address == dst + i && offset == src + i
      invariant SystemOf(k) == FillSystem(y1, fs, bs[..i])
    {
      CopyStep(y, y1, p, dst, n, src, i);
      ghost var m := k.mem;
      var b := LoadByte(k, offset, Follow(m, p, Page(AddressAt(src, i))).value);
      StoreByte(k, address, b, fs[i / 4096]);
      address := address + 1;
      offset := offset + 1;
      i := i + 1;
    }
    assert bs[..size] == bs;
  }

  // ---- One area of the list ----

  /** page_align(vm_start). */
  function AreaStart(a: Elf.Area): Word {
    a.start / 4096 * 4096
  }

  /** round_up(vm_end - page_align(vm_start)), the difference taken in 64 bits. */
  function AreaSize(a: Elf.Area): nat {
    RoundUp((a.end - AreaStart(a)) % 0x1_0000_0000_0000_0000)
  }

  function AreaPages(a: Elf.Area): nat { AreaSize(a) / 4096 }

  /** elf_head + vm_offset, where elf_head points to 64-bit words: the offset counts eight times. */
  function SourceAddress(elfHead: Word, offset: Word): Word {
    (elfHead + 8 * offset) % 0x1_0000_0000_0000_0000
  }

  /** The page of the user stack. */
  const USER_STACK: Word := 0xffff_fe00_0000_0000
  const USER_STACK_TOP: Word := USER_STACK + 0x1000 - 0x8

  ghost predicate CanArea(y: System, p: nat, a: Elf.Area, elfHead: Word) {
    match a.kind
    case TYPE_FILE => CanLoad(y, p, AreaStart(a), AreaPages(a), SourceAddress(elfHead, a.offset))
    case TYPE_STACK => IsRoot(y.space.tables, p) && CanMapRun(y.space, p, USER_STACK, 1, PAGE_USER)
    case TYPE_HEAP => true
  }

  /** The system after one area of the list. */
  ghost function AfterArea(y: System, p: nat, a: Elf.Area, elfHead: Word): System
    requires CanArea(y, p, a, elfHead)
  {
    match a.kind
    case TYPE_FILE => AfterLoad(y, p, AreaStart(a), AreaPages(a), SourceAddress(elfHead, a.offset))
    case TYPE_STACK => y.(space := MapRun(y.space, p, USER_STACK, 1, PAGE_USER))
    case TYPE_HEAP => y
  }

  lemma StackIsUser()
    ensures UserRun(USER_STACK, 1)
  {
  }

  /** Every area carries everything over and leaves the PML4 in use and the heap where they were. */
  lemma AreaCarries(y: System, p: nat, a: Elf.Area, elfHead: Word)
    requires Good(y) && CanArea(y, p, a, elfHead)
    ensures var y' := AfterArea(y, p, a, elfHead);
            Carries(y, y') && y'.root == y.root && y'.top == y.top
    ensures a.kind.TYPE_FILE? ==>
              Loaded(AfterArea(y, p, a, elfHead), p, AreaStart(a),
                     SourceBytes(y, SourceAddress(elfHead, a.offset), 4096 * AreaPages(a)))
  {
    hide Good, CanLoad, AfterLoad, Carries, Loaded, SourceBytes, MapRun, CanMapRun, UserRun;
    match a.kind
    case TYPE_FILE => LoadOutcome(y, p, AreaStart(a), AreaPages(a), SourceAddress(elfHead, a.offset));
    case TYPE_STACK =>
      StackIsUser();
      AreaMapped(y, p, USER_STACK, 1);
      DoesMap(y, p, USER_STACK, 1);
      var y1 := Do(y.(root := p), MapUser(USER_STACK, 1));
      CarriedIsGood(y, y1);
      RootStays(y, y1, y.root);
      RootCarries(y1, y.root);
      CarriesThen(y, y1, y1.(root := y.root));
    case TYPE_HEAP => RootInUse(y); RootCarries(y, y.root);
  }

  lemma RootInUse(y: System)
    requires Good(y)
    ensures IsRoot(y.space.tables, y.root) && y.(root := y.root) == y
  {
  }

  /** The run of an area is free, so kmalloc_top_virtual_address_user maps all of it. */
  lemma AllFree(s: Space, r: nat, v: Word, n: nat, size: Word)
    requires CanMapRun(s, r, v, n, PAGE_USER) && size == 4096 * n
    ensures PagesFor(size) == n && CanAllocate(s, r, v, n, PAGE_USER) && FreePrefix(s.mem, r, v, n) == n
    ensures Allocated(s, r, v, n, PAGE_USER) == MapRun(s, r, v, n, PAGE_USER)
  {
    hide MapRun, Inv, Follow, Page, CanMapRun, CanAllocate, Allocated, FreePrefix;
    AllFreeIsRun(s, r, v, n);
  }

  lemma SizeInPages(a: Elf.Area)
    ensures AreaSize(a) == 4096 * AreaPages(a) && AreaStart(a) % 4096 == 0
  {
  }

  /** Switching to another PML4 and back. */
  method SetCr3(k: Kernel, cr3: Word)
    requires k.Valid() && IsRoot(k.tables, Target(cr3))
    modifies k`cr3
    ensures k.Valid() && k.cr3 == cr3 && k.View() == old(k.View())
  {
    hide Inv;
    k.cr3 := cr3;
  }

  /** The statements of create_process for a file area. */
  method LoadFileArea(k: Kernel, processCr3: Word, area: Elf.Area, elfHead: Word, ghost p: nat)
    requires k.Valid() && Good(SystemOf(k)) && processCr3 == 4096 * p && p < FRAME_LIMIT && area.kind.TYPE_FILE?
    requires CanArea(SystemOf(k), p, area, elfHead)
    modifies k`mem, k`tables, k`freeListHeadKmalloc, k`pos, k`topVirtualAddress, k`cr3
    ensures k.Valid() && k.cr3 == old(k.cr3)
    ensures SystemOf(k) == AfterArea(old(SystemOf(k)), p, area, elfHead)
  {
    hide Good, Inv, MapRun, Carries, CanMapRun, SourceOk, SourceBytes, CanAllocate, Allocated, FreePrefix, Filled;
    ghost var y, n := SystemOf(k), AreaPages(area);
    ghost var src := SourceAddress(elfHead, area.offset);
    var oldCr3 := k.cr3;
    FrameOfAddress(p);
    CanLoadRun(y, p, AreaStart(area), n, src);
    SizeInPages(area);
    var vmStart := AreaStart(area);
    var vmSize := AreaSize(area);
    AllFree(y.space, p, vmStart, n, vmSize);
    AreaMapped(y, p, vmStart, n);
    DoesMap(y, p, vmStart, n);
    LoadOutcome(y, p, vmStart, n, src);
    SetCr3(k, processCr3);
    var vAddr := KmallocTopVirtualAddressUser(k, vmSize, vmStart);
    CopyBytes(k, vAddr, SourceAddress(elfHead, area.offset), vmSize, y, p, n);
    k.cr3 := oldCr3;
    CarriedIsGood(y, SystemOf(k));
    GoodIsValid(k);
  }

  /** The statements of create_process for the stack area. */
  method LoadStackArea(k: Kernel, processCr3: Word, area: Elf.Area, ghost p: nat, ghost elfHead: Word)
      returns (pstack: Word)
    requires k.Valid() && Good(SystemOf(k)) && processCr3 == 4096 * p && p < FRAME_LIMIT && area.kind.TYPE_STACK?
    requires CanArea(SystemOf(k), p, area, elfHead)
    modifies k`mem, k`tables, k`freeListHeadKmalloc, k`pos, k`topVirtualAddress, k`cr3
    ensures k.Valid() && k.cr3 == old(k.cr3) && pstack == USER_STACK_TOP - 64
    ensures SystemOf(k) == AfterArea(old(SystemOf(k)), p, area, elfHead)
  {
    hide Good, Inv, MapRun, Carries, CanMapRun, CanAllocate, Allocated, FreePrefix;
    ghost var y := SystemOf(k);
    var oldCr3 := k.cr3;
    FrameOfAddress(p);
    AllFree(y.space, p, USER_STACK, 1, PAGESIZE);
    AreaCarries(y, p, area, elfHead);
    SetCr3(k, processCr3);
    var newStack := KmallocTopVirtualAddressUser(k, PAGESIZE, USER_STACK_TOP - PAGESIZE + 8);
    pstack := USER_STACK_TOP - 64;
    k.cr3 := oldCr3;
    CarriedIsGood(y, SystemOf(k));
    GoodIsValid(k);
  }

  // ---- The whole process ----

  /** sizeof(pcb): kstack, eight words more, and four fields of 32 bits. */
  const PCB_SIZE: Word := 4176

  /** What create_process leaves in the process control block. */
  datatype Pcb = Pcb(address: Word, cr3: Word, eEntry: Word, pstack: Word)

  ghost predicate CanAreas(y: System, p: nat, areas: seq<Elf.Area>, n: nat, elfHead: Word)
    requires n <= |areas|
    decreases n, 0
  {
    n > 0 ==>
      && CanAreas(y, p, areas, n - 1, elfHead)
      && CanArea(AfterAreas(y, p, areas, n - 1, elfHead), p, areas[n - 1], elfHead)
  }

  /** The system after the first n areas. */
  ghost function AfterAreas(y: System, p: nat, areas: seq<Elf.Area>, n: nat, elfHead: Word): System
    requires n <= |areas| && CanAreas(y, p, areas, n, elfHead)
    decreases n, 1
  {
    if n == 0 then y else AfterArea(AfterAreas(y, p, areas, n - 1, elfHead), p, areas[n - 1], elfHead)
  }

  /** There are frames and addresses for the control block and the address space. */
  ghost predicate CanMakeSpace(y: System) {
    && Enabled(y, Allocate(PagesFor(PCB_SIZE) + 1, PAGE_USER))
    && Enabled(Do(y, Allocate(PagesFor(PCB_SIZE) + 1, PAGE_USER)), CreateSpace(PAGE_USER))
  }

  /** The system once the control block and the address space are there. */
  ghost function AfterSpace(y: System): System {
    if CanMakeSpace(y) then Do(Do(y, Allocate(PagesFor(PCB_SIZE) + 1, PAGE_USER)), CreateSpace(PAGE_USER)) else y
  }

  /** The frame of the new PML4. */
  ghost function NewRoot(y: System): nat {
    if CanMakeSpace(y) then HeadFrame(Do(y, Allocate(PagesFor(PCB_SIZE) + 1, PAGE_USER)).space) else 0
  }

  /** What create_process needs: frames, a heap that is not full, and areas that can be mapped, no
      two of which share a page, filled from an image that the kernel has mapped. */
  ghost predicate CanCreateProcess(y: System, areas: seq<Elf.Area>, elfHead: Word) {
    && CanMakeSpace(y)
    && CanAreas(AfterSpace(y), NewRoot(y), areas, |areas|, elfHead)
  }

  ghost function Created(y: System, areas: seq<Elf.Area>, elfHead: Word): System
    requires CanCreateProcess(y, areas, elfHead)
  {
    AfterAreas(AfterSpace(y), NewRoot(y), areas, |areas|, elfHead)
  }

  lemma {:induction false} FewerAreas(y: System, p: nat, areas: seq<Elf.Area>, n: nat, m: nat, elfHead: Word)
    requires n <= m <= |areas| && CanAreas(y, p, areas, m, elfHead)
    ensures CanAreas(y, p, areas, n, elfHead)
    decreases m
  {
    hide AfterAreas, CanArea;
    if n < m {
      var k: nat := m - 1;
      FewerAreas(y, p, areas, n, k, elfHead);
    }
  }

  lemma NextArea(y: System, p: nat, areas: seq<Elf.Area>, n: nat, elfHead: Word)
    requires n < |areas| && CanAreas(y, p, areas, n + 1, elfHead)
    ensures CanAreas(y, p, areas, n, elfHead) && CanArea(AfterAreas(y, p, areas, n, elfHead), p, areas[n], elfHead)
    ensures AfterAreas(y, p, areas, n + 1, elfHead)
            == AfterArea(AfterAreas(y, p, areas, n, elfHead), p, areas[n], elfHead)
  {
  }

  /** All areas together carry everything over and leave the PML4 in use where it was. */
  lemma {:induction false} AreasCarry(y: System, p: nat, areas: seq<Elf.Area>, n: nat, elfHead: Word)
    requires Good(y) && n <= |areas| && CanAreas(y, p, areas, n, elfHead)
    ensures var y' := AfterAreas(y, p, areas, n, elfHead); Carries(y, y') && y'.root == y.root && y'.top == y.top
    decreases n
  {
    hide Good, Carries, CanArea, AfterArea, AfterAreas, CanAreas;
    if n == 0 {
      NoAreas(y, p, areas, elfHead);
      RootInUse(y);
      RootCarries(y, y.root);
    } else {
      var k: nat := n - 1;
      NextArea(y, p, areas, k, elfHead);
      AreasCarry(y, p, areas, k, elfHead);
      var y1 := AfterAreas(y, p, areas, k, elfHead);
      CarriedIsGood(y, y1);
      AreaCarries(y1, p, areas[k], elfHead);
      CarriesThen(y, y1, AfterArea(y1, p, areas[k], elfHead));
    }
  }

  lemma NoAreas(y: System, p: nat, areas: seq<Elf.Area>, elfHead: Word)
    ensures CanAreas(y, p, areas, 0, elfHead) && AfterAreas(y, p, areas, 0, elfHead) == y
  {
  }

  /** Each file area is loaded when its turn comes and stays loaded. */
  lemma {:induction false} AreaLoaded(y: System, p: nat, areas: seq<Elf.Area>, n: nat, i: nat, elfHead: Word)
    requires Good(y) && IsRoot(y.space.tables, p) && n <= |areas| && CanAreas(y, p, areas, n, elfHead)
    requires i < n && areas[i].kind.TYPE_FILE?
             && SourceOk(y, SourceAddress(elfHead, areas[i].offset), 4096 * AreaPages(areas[i]))
    ensures Loaded(AfterAreas(y, p, areas, n, elfHead), p, AreaStart(areas[i]),
                   SourceBytes(y, SourceAddress(elfHead, areas[i].offset), 4096 * AreaPages(areas[i])))
    decreases n
  {
    hide Good, Carries, CanArea, AfterArea, AfterAreas, CanAreas;
    hide Loaded, SourceOk, SourceBytes, SourceAddress, AreaPages, AreaStart;
    var k: nat := n - 1;
    NextArea(y, p, areas, k, elfHead);
    AreasCarry(y, p, areas, k, elfHead);
    var y1, a := AfterAreas(y, p, areas, k, elfHead), areas[i];
    var src, size := SourceAddress(elfHead, a.offset), 4096 * AreaPages(a);
    CarriedIsGood(y, y1);
    AreaCarries(y1, p, areas[k], elfHead);
    if i == k {
      SourceCarries(y, y1, src, size);
    } else {
      AreaLoaded(y, p, areas, k, i, elfHead);
      RootStays(y, y1, p);
      LoadedCarries(y1, AfterArea(y1, p, areas[k], elfHead), p, AreaStart(a), SourceBytes(y, src, size));
    }
  }

  /** The new address space, before anything is loaded. */
  lemma SpaceCarries(y: System)
    requires Good(y) && CanMakeSpace(y)
    ensures Carries(y, AfterSpace(y)) && AfterSpace(y).root == y.root
    ensures var T := AfterSpace(y).space.tables; IsRoot(T, NewRoot(y)) && T[NewRoot(y)].user
  {
    hide Good, Carries, Enabled, Do;
    var n := PagesFor(PCB_SIZE) + 1;
    var y1 := Do(y, Allocate(n, PAGE_USER));
    AllocateCarries(y, n, PAGE_USER);
    CarriedIsGood(y, y1);
    CreateCarries(y1, PAGE_USER);
    CarriesThen(y, y1, AfterSpace(y));
    SameRoots(y, n);
  }

  lemma SameRoots(y: System, n: nat)
    requires Enabled(y, Allocate(n, PAGE_USER)) && Enabled(Do(y, Allocate(n, PAGE_USER)), CreateSpace(PAGE_USER))
    ensures Do(Do(y, Allocate(n, PAGE_USER)), CreateSpace(PAGE_USER)).root == y.root
  {
  }

  /** What create_new_user_pml4 needs once its frame has been taken. */
  lemma ReadyToCreate(y: System)
    requires Good(y) && Enabled(y, CreateSpace(PAGE_USER))
    ensures y.space.pos < |y.space.frames| && Inv(Popped(y.space)) && HeadFrame(y.space) > 0
    ensures CanCreate(Popped(y.space), y.root, y.top, HeadFrame(y.space), PAGE_USER)
    ensures Follow(Popped(y.space).mem, y.root, Page(y.top)) == None
    ensures var p := HeadFrame(y.space);
            AddSpace(MapDirect(Popped(y.space), y.root, y.top, p, PAGE_USER), p, PAGE_USER)
              == Do(y, CreateSpace(PAGE_USER)).space
  {
    hide MapDirect, Inv, Page, CanMap, AddSpace;
    CreateMaps(y, PAGE_USER);
    HalfPresent(y.space);
    TopIsShared(y);
    RootInUse(y);
    RoundOutcome(y.space, y.root, y.top, PAGE_USER);
    TakenIsData(y.space);
    InvOfGood(y);
    PopKeeps(y.space);
    TopFacts(y);
  }

  lemma InvOfGood(y: System)
    requires Good(y)
    ensures Inv(y.space)
  {
  }

  lemma TopFacts(y: System)
    requires Good(y)
    ensures y.top % 4096 == 0 && y.top >= KERNBASE
  {
  }

  /** The statements of create_process that make the control block and the address space. */
  method MakeSpace(k: Kernel) returns (block: Word, processCr3: Word)
    requires k.Valid() && Good(SystemOf(k)) && CanMakeSpace(SystemOf(k))
    modifies k`mem, k`tables, k`freeListHeadKmalloc, k`pos, k`topVirtualAddress
    ensures k.Valid() && SystemOf(k) == AfterSpace(old(SystemOf(k))) && Good(SystemOf(k))
    ensures block == old(k.topVirtualAddress) && processCr3 == 4096 * NewRoot(old(SystemOf(k)))
  {
    hide Good, Inv, MapRun, MapDirect, AddSpace, CanCreate, Page, Follow, RunFrames, Popped;
    ghost var y := SystemOf(k);
    HeapIsReady(k);
    block := KmallocUser(k, PCB_SIZE);
    ghost var y1 := SystemOf(k);
    BlockIs(y, y1.space);
    assert y1 == Do(y, Allocate(PagesFor(PCB_SIZE) + 1, PAGE_USER));
    StepOutcome(y, Allocate(PagesFor(PCB_SIZE) + 1, PAGE_USER));
    ReadyToCreate(y1);
    ExhaustionUnseen(k);
    processCr3 := k.GetNextFreePageKmalloc();
    var vAddr := CreateNewPml4(k, processCr3, HeadFrame(y1.space), PAGE_USER);
    StepOutcome(y1, CreateSpace(PAGE_USER));
    assert SystemOf(k).root == y1.root && SystemOf(k).top == y1.top + 4096;
  }

  lemma HeapIsReady(k: Kernel)
    requires k.Valid() && Good(SystemOf(k))
    requires Enabled(SystemOf(k), Allocate(PagesFor(PCB_SIZE) + 1, PAGE_USER))
    ensures HeapReady(k, PagesFor(PCB_SIZE) + 1, PAGE_USER)
  {
    hide Inv, RunFits;
  }

  lemma BlockIs(y: System, s: Space)
    requires BlockAllocated(y.space, s, y.root, y.top, PagesFor(PCB_SIZE) + 1, PAGE_USER)
    ensures s == MapRun(y.space, y.root, y.top, PagesFor(PCB_SIZE) + 1, PAGE_USER)
  {
  }

  /** The user stack pointer that create_process leaves after the first n areas. */
  function StackPointer(areas: seq<Elf.Area>, n: nat): Word
    requires n <= |areas|
  {
    if n == 0 then 0 else if areas[n - 1].kind.TYPE_STACK? then USER_STACK_TOP - 64 else StackPointer(areas, n - 1)
  }

  /** One round of the loop of create_process. */
  method LoadArea(k: Kernel, processCr3: Word, vma: Elf.Vma, elfHead: Word, ghost p: nat, ghost a: Elf.Area,
                  pstack: Word)
      returns (pstack': Word)
    requires k.Valid() && Good(SystemOf(k)) && processCr3 == 4096 * p && p < FRAME_LIMIT
    requires vma.AsArea() == a && CanArea(SystemOf(k), p, a, elfHead)
    modifies k`mem, k`tables, k`freeListHeadKmalloc, k`pos, k`topVirtualAddress, k`cr3, vma`vmStart, vma`vmEnd
    ensures k.Valid() && k.cr3 == old(k.cr3) && SystemOf(k) == AfterArea(old(SystemOf(k)), p, a, elfHead)
    ensures pstack' == if a.kind.TYPE_STACK? then USER_STACK_TOP - 64 else pstack
  {
    hide Good, Inv, CanArea, AfterArea;
    pstack' := pstack;
    if vma.vmType == Elf.TYPE_FILE {
      LoadFileArea(k, processCr3, vma.AsArea(), elfHead, p);
    } else if vma.vmType == Elf.TYPE_STACK {
      pstack' := LoadStackArea(k, processCr3, vma.AsArea(), p, elfHead);
      vma.vmStart := pstack';
      vma.vmEnd := pstack' + 8 * (512 * 3 - 1);
    } else {
      HeapArea(SystemOf(k), p, a, elfHead);
    }
  }

  /** The list of areas from its j-th element on, as the loop finds it. */
  ghost predicate Ahead(list: seq<Elf.Vma>, areas: seq<Elf.Area>, j: nat, temp: Elf.Vma?)
    reads list
  {
    && |list| == |areas| && j <= |list| && temp == (if j < |list| then list[j] else null)
    && (forall i, l :: 0 <= i < l < |list| ==> list[i] != list[l])
    && (forall i {:trigger list[i].AsArea()} :: j <= i < |list| ==> list[i].AsArea() == areas[i])
    && (forall i {:trigger list[i].vmNext} :: 0 <= i < |list| - 1 ==> list[i].vmNext == list[i + 1])
    && (list != [] ==> list[|list| - 1].vmNext == null)
  }

  /** The same on the list, with the step to the next area. */
  method LoadNext(k: Kernel, processCr3: Word, temp: Elf.Vma, elfHead: Word, pstack: Word,
                  ghost p: nat, ghost list: seq<Elf.Vma>, ghost areas: seq<Elf.Area>, ghost j: nat)
      returns (pstack': Word, next: Elf.Vma?)
    requires k.Valid() && Good(SystemOf(k)) && processCr3 == 4096 * p && p < FRAME_LIMIT
    requires Ahead(list, areas, j, temp) && CanArea(SystemOf(k), p, areas[j], elfHead)
    modifies k`mem, k`tables, k`freeListHeadKmalloc, k`pos, k`topVirtualAddress, k`cr3, list
    ensures k.Valid() && k.cr3 == old(k.cr3) && SystemOf(k) == AfterArea(old(SystemOf(k)), p, areas[j], elfHead)
    ensures pstack' == if areas[j].kind.TYPE_STACK? then USER_STACK_TOP - 64 else pstack
    ensures Ahead(list, areas, j + 1, next)
  {
    hide Good, Inv, CanArea, AfterArea;
    assert list[j].AsArea() == areas[j];
    pstack' := LoadArea(k, processCr3, temp, elfHead, p, areas[j], pstack);
    next := temp.vmNext;
  }

  lemma StepAhead(y: System, p: nat, areas: seq<Elf.Area>, j: nat, elfHead: Word)
    requires Good(y) && j < |areas| && CanAreas(y, p, areas, |areas|, elfHead)
    ensures CanAreas(y, p, areas, j, elfHead) && CanArea(AfterAreas(y, p, areas, j, elfHead), p, areas[j], elfHead)
    ensures CanAreas(y, p, areas, j + 1, elfHead)
    ensures AfterAreas(y, p, areas, j + 1, elfHead)
            == AfterArea(AfterAreas(y, p, areas, j, elfHead), p, areas[j], elfHead)
    ensures Good(AfterAreas(y, p, areas, j + 1, elfHead))
  {
    hide Good, CanArea, AfterArea, AfterAreas, CanAreas, Carries;
    FewerAreas(y, p, areas, j + 1, |areas|, elfHead);
    NextArea(y, p, areas, j, elfHead);
    AreasCarry(y, p, areas, j + 1, elfHead);
    CarriedIsGood(y, AfterAreas(y, p, areas, j + 1, elfHead));
  }

  /** create_process, on what load_elf_vmas has made. */
  method CreateProcess(k: Kernel, head: Elf.Mm, ghost list: seq<Elf.Vma>, ghost areas: seq<Elf.Area>)
      returns (process: Pcb)
    requires k.Valid() && Good(SystemOf(k)) && CanCreateProcess(SystemOf(k), areas, head.elfHead)
    requires list != [] && Elf.Holds(list, areas) && head.mmap == list[0]
    modifies k`mem, k`tables, k`freeListHeadKmalloc, k`pos, k`topVirtualAddress, k`cr3, list
    ensures k.Valid() && Good(SystemOf(k)) && k.cr3 == old(k.cr3)
    ensures SystemOf(k) == Created(old(SystemOf(k)), areas, head.elfHead)
    ensures process == Pcb(old(k.topVirtualAddress), 4096 * NewRoot(old(SystemOf(k))), head.eEntry,
                           StackPointer(areas, |areas|))
  {
    hide Good, Inv, CanArea, AfterArea, AfterAreas, CanAreas, AfterSpace;
    hide Enabled, Carries, NewRoot, Ahead, Elf.Holds, Do;
    AheadStarts(list, areas);
    ghost var y, n := SystemOf(k), |areas|;
    NewRootFits(y);
    var block, processCr3 := MakeSpace(k);
    ghost var y2, p := SystemOf(k), NewRoot(y);
    NoAreas(y2, p, areas, head.elfHead);
    var pstack: Word := 0;
    var temp: Elf.Vma? := head.mmap;
    ghost var j: nat := 0;
    while temp != null
      invariant j <= n && Ahead(list, areas, j, temp) && k.Valid() && k.cr3 == old(k.cr3)
      invariant CanAreas(y2, p, areas, j, head.elfHead) && Good(SystemOf(k))
      invariant SystemOf(k) == AfterAreas(y2, p, areas, j, head.elfHead) && pstack == StackPointer(areas, j)
      decreases n - j
    {
      AheadAt(list, areas, j, temp);
      StepAhead(y2, p, areas, j, head.elfHead);
      pstack, temp := LoadNext(k, processCr3, temp, head.elfHead, pstack, p, list, areas, j);
      j := j + 1;
    }
    AheadAt(list, areas, j, temp);
    process := Pcb(block, processCr3, head.eEntry, pstack);
  }

  lemma AheadStarts(list: seq<Elf.Vma>, areas: seq<Elf.Area>)
    requires list != [] && Elf.Holds(list, areas)
    ensures Ahead(list, areas, 0, list[0])
  {
  }

  lemma AheadAt(list: seq<Elf.Vma>, areas: seq<Elf.Area>, j: nat, temp: Elf.Vma?)
    requires Ahead(list, areas, j, temp)
    ensures j <= |areas| && (temp == null <==> j == |areas|)
  {
  }

  lemma NewRootFits(y: System)
    ensures NewRoot(y) < FRAME_LIMIT
  {
  }

  lemma HeapArea(y: System, p: nat, a: Elf.Area, elfHead: Word)
    requires CanArea(y, p, a, elfHead) && a.kind.TYPE_HEAP?
    ensures AfterArea(y, p, a, elfHead) == y
  {
  }

  /** A new process: the PML4 in use is the same as before; the process's own maps each file area,
      page by page, open to user code at all four levels, to the bytes that the image holds from
      elf_head + 8 p_offset on; and nothing that any address space had mapped before has moved, nor
      has any data in use changed. */
  lemma ProcessIsLoaded(y: System, areas: seq<Elf.Area>, elfHead: Word, i: nat)
    requires Good(y) && CanCreateProcess(y, areas, elfHead) && i < |areas| && areas[i].kind.TYPE_FILE?
    requires SourceOk(y, SourceAddress(elfHead, areas[i].offset), 4096 * AreaPages(areas[i]))
    ensures var y', p, v := Created(y, areas, elfHead), NewRoot(y), AreaStart(areas[i]);
            var bs := SourceBytes(y, SourceAddress(elfHead, areas[i].offset), 4096 * AreaPages(areas[i]));
            && y'.root == y.root && Carries(y, y') && IsRoot(y'.space.tables, p)
            && Loaded(y', p, v, bs)
            && forall j {:trigger AddressAt(v, j)} :: 0 <= j < |bs| ==> UserAccess(y'.space.mem, p, AddressAt(v, j))
  {
    hide Good, Carries, CanAreas, AfterAreas, AfterSpace, Enabled, Loaded, SourceOk, SourceBytes, SourceAddress;
    hide AreaPages, AreaStart, UserAccess;
    SpaceCarries(y);
    var y2, p, a := AfterSpace(y), NewRoot(y), areas[i];
    var src, size := SourceAddress(elfHead, a.offset), 4096 * AreaPages(a);
    CarriedIsGood(y, y2);
    SourceCarries(y, y2, src, size);
    AreaLoaded(y2, p, areas, |areas|, i, elfHead);
    AreasCarry(y2, p, areas, |areas|, elfHead);
    var y' := Created(y, areas, elfHead);
    CarriesThen(y, y2, y');
    CarriedIsGood(y, y');
    UserStays(y2, y', p);
    forall j | 0 <= j < |SourceBytes(y, src, size)|
      ensures UserAccess(y'.space.mem, p, AddressAt(AreaStart(a), j))
    {
      LoadedIsUser(y', p, AreaStart(a), SourceBytes(y, src, size), j);
    }
  }

  lemma UserStays(y: System, y': System, p: nat)
    requires Carries(y, y') && IsRoot(y.space.tables, p) && y.space.tables[p].user
    ensures IsRoot(y'.space.tables, p) && y'.space.tables[p].user
  {
  }

  /** Once the stack area has had its turn its page stays mapped. */
  lemma {:induction false} StackStays(y: System, p: nat, areas: seq<Elf.Area>, n: nat, i: nat, elfHead: Word)
    requires Good(y) && IsRoot(y.space.tables, p) && n <= |areas| && CanAreas(y, p, areas, n, elfHead)
    requires i < n && areas[i].kind.TYPE_STACK?
    ensures Follow(AfterAreas(y, p, areas, n, elfHead).space.mem, p, Page(USER_STACK)).Some?
    decreases n
  {
    hide Good, CanAreas, AfterAreas, AfterLoad, CanLoad, Loaded, Follow, Page, CanMapRun, MapRun;
    var k: nat := n - 1;
    NextArea(y, p, areas, k, elfHead);
    AreasCarry(y, p, areas, k, elfHead);
    var y1 := AfterAreas(y, p, areas, k, elfHead);
    CarriedIsGood(y, y1);
    RootStays(y, y1, p);
    if i == k {
      StackIsUser();
      AreaMapped(y1, p, USER_STACK, 1);
      DoesMap(y1, p, USER_STACK, 1);
      assert PageAt(USER_STACK, 0) == USER_STACK;
    } else {
      StackStays(y, p, areas, k, i, elfHead);
      AreaCarries(y1, p, areas[k], elfHead);
      UserStackPath();
      assert SamePath(y1.space.mem, AfterArea(y1, p, areas[k], elfHead).space.mem, p, Page(USER_STACK));
    }
  }

  lemma UserStackPath()
    ensures I4(USER_STACK) == 508 && Canonical(USER_STACK) && Page(USER_STACK) == Page(USER_STACK_TOP - 64)
  {
    SamePage(USER_STACK, USER_STACK_TOP - 64);
  }

  /** A new process starts with a stack pointer into a page that its own code may use. */
  lemma StackIsThere(y: System, areas: seq<Elf.Area>, elfHead: Word, i: nat)
    requires Good(y) && CanCreateProcess(y, areas, elfHead) && i < |areas| && areas[i].kind.TYPE_STACK?
    ensures UserAccess(Created(y, areas, elfHead).space.mem, NewRoot(y), 0xffff_fe00_0000_0fb8)
  {
    hide Good, Carries, CanAreas, AfterAreas, AfterSpace, Enabled, Follow, Page;
    SpaceCarries(y);
    var y2, p := AfterSpace(y), NewRoot(y);
    CarriedIsGood(y, y2);
    StackStays(y2, p, areas, |areas|, i, elfHead);
    AreasCarry(y2, p, areas, |areas|, elfHead);
    var y' := Created(y, areas, elfHead);
    CarriedIsGood(y2, y');
    UserStays(y2, y', p);
    RootOfGoodSystem(y');
    UserStackPath();
    UserOkOfGood(y');
    MappedIsUser(y'.space.mem, y'.space.tables, y'.space.kroot, p, Page(USER_STACK));
  }

  lemma UserOkOfGood(y: System)
    requires Good(y)
    ensures UserOk(y.space.mem, y.space.tables)
  {
  }

  // ---- Whether the bytes are the right ones ----

  /** The kernel reads the file from elfHead on. */
  ghost predicate ImageAt(y: System, elfHead: Word, file: seq<Byte>) {
    elfHead >= KERNBASE && elfHead + |file| <= WORD_LIMIT
    && forall j {:trigger SourceByte(y, elfHead, j)} :: 0 <= j < |file| ==> SourceByte(y, elfHead, j) == file[j]
  }

  /** The byte that root p maps at v. */
  function MappedByte(y: System, p: nat, v: Word): Byte {
    ReadByte(y.space.mem, FrameOf(y.space.mem, p, v), v % 4096)
  }

  /** A loadable segment of the ELF format whose area is areas[i], with all that create_process reads for
      its first filesz bytes within the file. */
  ghost predicate SegmentOf(areas: seq<Elf.Area>, i: nat, h: Elf.Phdr, file: seq<Byte>) {
    && i < |areas| && areas[i] == Elf.FileArea(h)
    && h.filesz <= h.memsz && h.vaddr + h.memsz < WORD_LIMIT
    && 8 * h.offset + h.vaddr % 4096 + h.filesz <= |file|
  }

  /** The whole setting: a process created from a file that the kernel has mapped. */
  ghost predicate CreatedFrom(y: System, areas: seq<Elf.Area>, elfHead: Word, i: nat, h: Elf.Phdr, file: seq<Byte>) {
    && Good(y) && CanCreateProcess(y, areas, elfHead) && SegmentOf(areas, i, h, file) && ImageAt(y, elfHead, file)
    && SourceOk(y, SourceAddress(elfHead, h.offset), 4096 * AreaPages(Elf.FileArea(h)))
  }

  /** Byte j of a segment in memory, within the area that load_elf_vmas makes of it. */
  lemma SegmentPlace(a: Elf.Area, h: Elf.Phdr, j: nat)
    requires a.start == h.vaddr && a.end == h.vaddr + h.memsz && h.vaddr + h.memsz < WORD_LIMIT && j < h.memsz
    ensures h.vaddr % 4096 + j < 4096 * AreaPages(a)
    ensures AddressAt(AreaStart(a), h.vaddr % 4096 + j) == h.vaddr + j == AddressAt(h.vaddr, j)
  {
    var d := h.vaddr % 4096;
    assert h.vaddr == 4096 * (h.vaddr / 4096) + d;
    assert AreaStart(a) == h.vaddr - d;
    assert (a.end - AreaStart(a)) % 0x1_0000_0000_0000_0000 == d + h.memsz;
    SizeInPages(a);
  }

  /** All p_memsz bytes of a segment, those behind the file's included, are open to user code. */
  ghost predicate SegmentOpen(m: Memory, r: nat, h: Elf.Phdr) {
    forall j {:trigger AddressAt(h.vaddr, j)} :: 0 <= j < h.memsz ==> UserAccess(m, r, AddressAt(h.vaddr, j))
  }

  /** A new process may use every byte of the memory of its segments. */
  lemma SegmentIsOpen(y: System, areas: seq<Elf.Area>, elfHead: Word, i: nat, h: Elf.Phdr)
    requires Good(y) && CanCreateProcess(y, areas, elfHead) && i < |areas| && h.vaddr + h.memsz < WORD_LIMIT
    requires areas[i] == Elf.Area(h.vaddr, h.vaddr + h.memsz, h.offset, Elf.TYPE_FILE)
    requires SourceOk(y, SourceAddress(elfHead, areas[i].offset), 4096 * AreaPages(areas[i]))
    ensures SegmentOpen(Created(y, areas, elfHead).space.mem, NewRoot(y), h)
  {
    hide Good, CanAreas, AfterAreas, AfterSpace, Enabled, Created, NewRoot, Loaded, SourceOk, SourceBytes;
    hide SourceAddress, AreaPages, AreaStart, Carries, UserAccess, AddressAt;
    ProcessIsLoaded(y, areas, elfHead, i);
    forall j | 0 <= j < h.memsz
      ensures UserAccess(Created(y, areas, elfHead).space.mem, NewRoot(y), AddressAt(h.vaddr, j))
    {
      SegmentPlace(areas[i], h, j);
    }
  }

  /** Byte j of a segment within its area, and where it comes from. */
  lemma SegmentByte(h: Elf.Phdr, elfHead: Word, file: seq<Byte>, j: nat)
    requires h.filesz <= h.memsz && h.vaddr + h.memsz < WORD_LIMIT && j < h.filesz
    requires 8 * h.offset + h.vaddr % 4096 + h.filesz <= |file| && elfHead + |file| <= WORD_LIMIT
    ensures var (a, d) := (Elf.FileArea(h), h.vaddr % 4096);
            && d + j < 4096 * AreaPages(a)
            && AddressAt(AreaStart(a), d + j) == h.vaddr + j == AddressAt(h.vaddr, j)
            && AddressAt(SourceAddress(elfHead, h.offset), d + j) == AddressAt(elfHead, 8 * h.offset + d + j)
  {
    SegmentPlace(Elf.FileArea(h), h, j);
    assert SourceAddress(elfHead, h.offset) == elfHead + 8 * h.offset;
  }

  /** Byte k of a file area is the source's. */
  lemma AreaByte(y: System, areas: seq<Elf.Area>, elfHead: Word, i: nat, k: nat)
    requires Good(y) && CanCreateProcess(y, areas, elfHead) && i < |areas| && areas[i].kind.TYPE_FILE?
    requires SourceOk(y, SourceAddress(elfHead, areas[i].offset), 4096 * AreaPages(areas[i]))
    requires k < 4096 * AreaPages(areas[i])
    ensures MappedByte(Created(y, areas, elfHead), NewRoot(y), AddressAt(AreaStart(areas[i]), k))
            == SourceBytes(y, SourceAddress(elfHead, areas[i].offset), 4096 * AreaPages(areas[i]))[k]
  {
    hide Good, CanAreas, AfterAreas, AfterSpace, Enabled, Created, NewRoot, Loaded, SourceOk, SourceBytes;
    hide SourceAddress, AreaPages, AreaStart, MappedByte, Carries, UserAccess, AddressAt;
    ProcessIsLoaded(y, areas, elfHead, i);
    var size := 4096 * AreaPages(areas[i]);
    LoadedAt(Created(y, areas, elfHead), NewRoot(y), AreaStart(areas[i]),
             SourceBytes(y, SourceAddress(elfHead, areas[i].offset), size), k);
  }

  lemma LoadedAt(y: System, p: nat, v: Word, bs: seq<Byte>, k: nat)
    requires Loaded(y, p, v, bs) && k < |bs|
    ensures MappedByte(y, p, AddressAt(v, k)) == bs[k]
  {
    hide Follow, Page, DataFrame, ReadByte, AddressAt, Canonical, I4;
    assert ByteLoaded(y, p, v, bs, k);
  }

  /** After create_process the new process finds, at byte j of a segment, byte
      8 p_offset + p_vaddr mod 4096 + j of the file. */
  lemma SegmentHolds(y: System, areas: seq<Elf.Area>, elfHead: Word, i: nat, h: Elf.Phdr, file: seq<Byte>, j: nat)
    requires CreatedFrom(y, areas, elfHead, i, h, file) && j < h.filesz
    ensures MappedByte(Created(y, areas, elfHead), NewRoot(y), AddressAt(h.vaddr, j))
            == file[8 * h.offset + h.vaddr % 4096 + j]
  {
    hide *;
    var k := h.vaddr % 4096 + j;
    SettingParts(y, areas, elfHead, i, h, file);
    SegmentByte(h, elfHead, file, j);
    AreaByte(y, areas, elfHead, i, k);
    SourceIsFile(y, elfHead, h, file, 4096 * AreaPages(areas[i]), k);
  }

  lemma SettingParts(y: System, areas: seq<Elf.Area>, elfHead: Word, i: nat, h: Elf.Phdr, file: seq<Byte>)
    requires CreatedFrom(y, areas, elfHead, i, h, file)
    ensures Good(y) && CanCreateProcess(y, areas, elfHead) && ImageAt(y, elfHead, file)
    ensures elfHead + |file| <= WORD_LIMIT && 8 * h.offset + h.vaddr % 4096 + h.filesz <= |file|
    ensures i < |areas| && areas[i] == Elf.FileArea(h) && areas[i].kind.TYPE_FILE? && areas[i].offset == h.offset
    ensures h.filesz <= h.memsz && h.vaddr + h.memsz < WORD_LIMIT
    ensures SourceOk(y, SourceAddress(elfHead, h.offset), 4096 * AreaPages(areas[i]))
  {
    hide Good, CanCreateProcess, SourceOk, SourceAddress, AreaPages;
  }

  /** The byte that the loader takes for byte i of the area. */
  lemma SourceIsFile(y: System, elfHead: Word, h: Elf.Phdr, file: seq<Byte>, size: nat, i: nat)
    requires ImageAt(y, elfHead, file) && i < size && 8 * h.offset + i < |file|
    requires AddressAt(SourceAddress(elfHead, h.offset), i) == AddressAt(elfHead, 8 * h.offset + i)
    ensures SourceBytes(y, SourceAddress(elfHead, h.offset), size)[i] == file[8 * h.offset + i]
  {
    hide SourceByte, AddressAt, SourceAddress;
    SameSource(y, SourceAddress(elfHead, h.offset), i, elfHead, 8 * h.offset + i);
    assert SourceByte(y, elfHead, 8 * h.offset + i) == file[8 * h.offset + i];
  }

  lemma SameSource(y: System, src: Word, i: nat, head: Word, j: nat)
    requires AddressAt(src, i) == AddressAt(head, j)
    ensures SourceByte(y, src, i) == SourceByte(y, head, j)
  {
  }

  /** By the ELF format (gABI, chapter 5, Program Header) byte j of a segment is byte p_offset + j of the
      file. */
  ghost predicate RightSegment(y: System, p: nat, h: Elf.Phdr, file: seq<Byte>)
    requires h.offset + h.filesz <= |file|
  {
    forall j :: 0 <= j < h.filesz ==> MappedByte(y, p, AddressAt(h.vaddr, j)) == file[h.offset + j]
  }

  /** A segment that starts the file and begins on a page boundary is loaded as the format says. */
  lemma SegmentIsRight(y: System, areas: seq<Elf.Area>, elfHead: Word, i: nat, h: Elf.Phdr, file: seq<Byte>)
    requires CreatedFrom(y, areas, elfHead, i, h, file) && h.offset == 0 && h.vaddr % 4096 == 0
    ensures RightSegment(Created(y, areas, elfHead), NewRoot(y), h, file)
  {
    hide CreatedFrom, Created, NewRoot, MappedByte, CanCreateProcess;
    FileIsLong(y, areas, elfHead, i, h, file);
    forall j | 0 <= j < h.filesz
      ensures MappedByte(Created(y, areas, elfHead), NewRoot(y), AddressAt(h.vaddr, j)) == file[h.offset + j]
    {
      SegmentHolds(y, areas, elfHead, i, h, file, j);
    }
  }

  lemma FileIsLong(y: System, areas: seq<Elf.Area>, elfHead: Word, i: nat, h: Elf.Phdr, file: seq<Byte>)
    requires CreatedFrom(y, areas, elfHead, i, h, file)
    ensures 8 * h.offset + h.vaddr % 4096 + h.filesz <= |file| && CanCreateProcess(y, areas, elfHead)
  {
  }

  /** Byte j of a segment and the byte of the file that the loader takes for it are the same. */
  predicate SameByte(file: seq<Byte>, h: Elf.Phdr, j: nat)
    requires 8 * h.offset + h.vaddr % 4096 + h.filesz <= |file| && j < h.filesz
  {
    file[8 * h.offset + h.vaddr % 4096 + j] == file[h.offset + j]
  }

  ghost predicate ReadsRight(file: seq<Byte>, h: Elf.Phdr)
    requires 8 * h.offset + h.vaddr % 4096 + h.filesz <= |file|
  {
    forall j {:trigger SameByte(file, h, j)} :: 0 <= j < h.filesz ==> SameByte(file, h, j)
  }

  /** For each file: the segment is loaded as the format says exactly if the file repeats the bytes of
      the segment where the loader looks for them. */
  lemma SegmentIsRightFor(y: System, areas: seq<Elf.Area>, elfHead: Word, i: nat, h: Elf.Phdr, file: seq<Byte>)
    requires CreatedFrom(y, areas, elfHead, i, h, file)
    ensures h.offset + h.filesz <= |file|
    ensures RightSegment(Created(y, areas, elfHead), NewRoot(y), h, file) <==> ReadsRight(file, h)
  {
    hide CreatedFrom, Created, NewRoot, MappedByte, CanCreateProcess;
    FileIsLong(y, areas, elfHead, i, h, file);
    var y', p := Created(y, areas, elfHead), NewRoot(y);
    forall j | 0 <= j < h.filesz
      ensures MappedByte(y', p, AddressAt(h.vaddr, j)) == file[h.offset + j] <==> SameByte(file, h, j)
    {
      SegmentHolds(y, areas, elfHead, i, h, file, j);
    }
  }

  /** For all files: exactly if the segment is empty, or starts the file and begins on a page boundary. */
  lemma RightForAllFiles(h: Elf.Phdr)
    ensures (forall file: seq<Byte> :: 8 * h.offset + h.vaddr % 4096 + h.filesz <= |file| ==> ReadsRight(file, h))
        <==> h.filesz == 0 || (h.offset == 0 && h.vaddr % 4096 == 0)
  {
    if h.filesz > 0 && !(h.offset == 0 && h.vaddr % 4096 == 0) {
      assert !SameByte(MarkedFile(h), h, 0);
      assert !ReadsRight(MarkedFile(h), h);
    }
  }

  /** A file of zeroes with a one where the loader looks for the first byte of the segment. */
  function MarkedFile(h: Elf.Phdr): (file: seq<Byte>)
    requires h.filesz > 0
    ensures var at := 8 * h.offset + h.vaddr % 4096;
            && |file| == at + h.filesz && file[at] == 1 && forall j :: 0 <= j < |file| && j != at ==> file[j] == 0
  {
    seq<Byte>(8 * h.offset + h.vaddr % 4096, j => 0) + [1] + seq<Byte>(h.filesz - 1, j => 0)
  }

  /** A file for which it goes wrong, whatever else the system holds: the segment's first byte is zero in
      the file, and one in the process that create_process makes of it. */
  lemma SegmentGoesWrong(y: System, areas: seq<Elf.Area>, elfHead: Word, i: nat, h: Elf.Phdr)
    requires h.filesz > 0 && CreatedFrom(y, areas, elfHead, i, h, MarkedFile(h))
    requires !(h.offset == 0 && h.vaddr % 4096 == 0)
    ensures MarkedFile(h)[h.offset] == 0
    ensures CanCreateProcess(y, areas, elfHead)
    ensures MappedByte(Created(y, areas, elfHead), NewRoot(y), h.vaddr) == 1
  {
    hide CreatedFrom, Created, NewRoot, MappedByte, CanCreateProcess;
    FileIsLong(y, areas, elfHead, i, h, MarkedFile(h));
    SegmentHolds(y, areas, elfHead, i, h, MarkedFile(h), 0);
    assert AddressAt(h.vaddr, 0) == h.vaddr;
  }
}
