/** sys/paging.c while booting: the free list is built in the memory it describes, and its head is
    moved past the frames that hold it. Boot code runs on the loader's tables, where kernel and
    physical addresses name the same memory; it is modelled on physical addresses. */
module FreeList {
  import opened Words
  import opened Mmu
  import opened AddressSpace
  import opened Paging

  /** round_up: to the next page boundary. */
  function RoundUp(a: nat): (r: nat)
    ensures r % 4096 == 0 && a <= r < a + 4096
  {
    if a % 4096 != 0 then a / 4096 * 4096 + 4096 else a / 4096 * 4096
  }

  /** n consecutive frames. */
  function Region(first: nat, n: nat): (fs: seq<nat>)
    ensures |fs| == n
    ensures forall j :: 0 <= j < n ==> fs[j] == first + j
  {
    seq(n, j requires 0 <= j < n => first + j)
  }

  /** Node j holds frame `frame` and points to `next`. */
  predicate NodeIs(m: Memory, base: nat, j: nat, next: nat, frame: nat) {
    ReadPhys(m, base + NODE * j) == next && ReadPhys(m, base + NODE * j + 16) == 4096 * frame
  }

  /** Where node j of n points: to the node after it, the last one nowhere. */
  function NextOf(base: nat, j: nat, n: nat): nat {
    if j + 1 < n then base + NODE * (j + 1) else 0
  }

  predicate NodeOf(m: Memory, base: nat, fs: seq<nat>, j: nat)
    requires j < |fs|
  {
    NodeIs(m, base, j, NextOf(base, j, |fs|), fs[j])
  }

  /** The finished list of the frames fs. */
  ghost predicate Chain(m: Memory, base: nat, fs: seq<nat>) {
    forall j {:trigger NodeOf(m, base, fs, j)} :: 0 <= j < |fs| ==> NodeOf(m, base, fs, j)
  }

  predicate OpenNodeOf(m: Memory, base: nat, fs: seq<nat>, j: nat)
    requires j < |fs|
  {
    NodeIs(m, base, j, base + NODE * (j + 1), fs[j])
  }

  /** The list while it is being written: the last node already points to the place of the next. */
  ghost predicate OpenChain(m: Memory, base: nat, fs: seq<nat>) {
    forall j {:trigger OpenNodeOf(m, base, fs, j)} :: 0 <= j < |fs| ==> OpenNodeOf(m, base, fs, j)
  }

  predicate AlmostNodeOf(m: Memory, base: nat, fs: seq<nat>, j: nat)
    requires j < |fs|
  {
    && ReadPhys(m, base + NODE * j + 16) == 4096 * fs[j]
    && (j + 1 < |fs| ==> ReadPhys(m, base + NODE * j) == base + NODE * (j + 1))
  }

  /** The list while the link of its last node is not settled. */
  ghost predicate AlmostChain(m: Memory, base: nat, fs: seq<nat>) {
    forall j {:trigger AlmostNodeOf(m, base, fs, j)} :: 0 <= j < |fs| ==> AlmostNodeOf(m, base, fs, j)
  }

  /** The frames that hold the first n nodes. */
  predicate Storage(base: nat, n: nat, f: nat) {
    base / 4096 <= f && 4096 * f < base + NODE * n
  }

  /** What adding the frames fs to a list of n nodes does to the rest of memory: the first 512 bytes of
      each of them become zero, and nothing else changes. */
  ghost predicate Cleared(m: Memory, m': Memory, base: nat, n: nat, fs: seq<nat>) {
    forall f: nat, i: nat {:trigger Read(m', f, i)} :: !Storage(base, n, f) ==>
      Read(m', f, i) == if f in fs && i < 64 then 0 else Read(m, f, i)
  }

  lemma ClearedThen(m: Memory, m1: Memory, m2: Memory, base: nat, n1: nat, n2: nat, fs: seq<nat>, gs: seq<nat>)
    requires Cleared(m, m1, base, n1, fs) && Cleared(m1, m2, base, n2, gs) && n1 <= n2
    ensures Cleared(m, m2, base, n2, fs + gs)
  {
    forall f: nat, i: nat | !Storage(base, n2, f)
      ensures Read(m2, f, i) == if f in fs + gs && i < 64 then 0 else Read(m, f, i)
    {
      assert !Storage(base, n1, f);
      assert Read(m1, f, i) == if f in fs && i < 64 then 0 else Read(m, f, i);
    }
  }

  /** memset(p, 0, PAGESIZE / 8): the first 512 bytes of the page, word by word. */
  method ClearHead(m: Memory, page: Word) returns (m': Memory)
    requires page % 4096 == 0
    ensures forall f: nat, i: nat :: Read(m', f, i) == if f == page / 4096 && i < 64 then 0 else Read(m, f, i)
  {
    m' := m;
    for w := 0 to 64
      invariant forall f: nat, i: nat :: Read(m', f, i) == if f == page / 4096 && i < w then 0 else Read(m, f, i)
    {
      SlotAddress(page / 4096, w);
      var a := page + 8 * w;
      assert a == 4096 * (page / 4096) + 8 * w;
      assert a / 4096 == page / 4096 && a % 4096 / 8 == w;
      ghost var before := m';
      m' := WritePhys(m', a, 0);
      assert forall f: nat, i: nat :: Read(m', f, i) == if f == page / 4096 && i == w then 0 else Read(before, f, i);
    }
  }

  /** Clearing an eighth of a page leaves it zero exactly if the rest was zero before. */
  lemma HeadClearsFrame(m: Memory, m': Memory, page: Word)
    requires page % 4096 == 0
    requires forall f: nat, i: nat :: Read(m', f, i) == if f == page / 4096 && i < 64 then 0 else Read(m, f, i)
    ensures (forall i: nat :: i < SLOTS ==> Read(m', page / 4096, i) == 0)
        <==> forall i: nat :: 64 <= i < SLOTS ==> Read(m, page / 4096, i) == 0
  {
    forall i: nat | 64 <= i < SLOTS
      ensures Read(m', page / 4096, i) == Read(m, page / 4096, i)
    {
    }
  }

  // ---- One node more ----

  /** Clearing the head of the page that the next node stands for leaves the nodes before it
      alone, as long as they lie below that page. */
  lemma ClearKeepsChain(m: Memory, m': Memory, base: nat, fs: seq<nat>, page: nat)
    requires base % 4096 == 0 && page % 4096 == 0 && OpenChain(m, base, fs) && base + NODE * |fs| <= page
    requires forall f: nat, i: nat :: Read(m', f, i) == if f == page / 4096 && i < 64 then 0 else Read(m, f, i)
    ensures OpenChain(m', base, fs)
  {
    forall j | 0 <= j < |fs|
      ensures OpenNodeOf(m', base, fs, j)
    {
      assert OpenNodeOf(m, base, fs, j);
      assert base + NODE * j + 16 < page;
    }
  }

  /** Writing an aligned word at or above the place of node |fs| leaves the nodes before it alone. */
  lemma WriteKeepsChain(m: Memory, a: nat, w: Word, base: nat, fs: seq<nat>)
    requires base % 4096 == 0 && a % 8 == 0 && OpenChain(m, base, fs) && a >= base + NODE * |fs|
    ensures OpenChain(WritePhys(m, a, w), base, fs)
  {
    forall j | 0 <= j < |fs|
      ensures OpenNodeOf(WritePhys(m, a, w), base, fs, j)
    {
      assert OpenNodeOf(m, base, fs, j);
      NodeFields(base, j, j);
      PhysDistinct(m, a, w, base + NODE * j);
      PhysDistinct(m, a, w, base + NODE * j + 16);
    }
  }

  /** The frame written into the node at the end of an open list extends it. */
  lemma FrameAdded(m: Memory, base: nat, fs: seq<nat>, frame: nat)
    requires OpenChain(m, base, fs) && ReadPhys(m, base + NODE * |fs| + 16) == 4096 * frame
    ensures AlmostChain(m, base, fs + [frame])
  {
    forall j | 0 <= j < |fs| + 1
      ensures AlmostNodeOf(m, base, fs + [frame], j)
    {
      if j < |fs| { assert OpenNodeOf(m, base, fs, j); }
    }
  }

  lemma FinishedIsAlmost(m: Memory, base: nat, fs: seq<nat>)
    requires Chain(m, base, fs) || OpenChain(m, base, fs)
    ensures AlmostChain(m, base, fs)
  {
    forall j | 0 <= j < |fs|
      ensures AlmostNodeOf(m, base, fs, j)
    {
      if Chain(m, base, fs) { assert NodeOf(m, base, fs, j); } else { assert OpenNodeOf(m, base, fs, j); }
    }
  }

  /** Ending the last node finishes the list. */
  lemma ChainClosed(m: Memory, base: nat, fs: seq<nat>, k: nat, last: nat)
    requires base % 4096 == 0 && AlmostChain(m, base, fs) && |fs| == k + 1 && last == base + NODE * k
    ensures Chain(WritePhys(m, last, 0), base, fs)
  {
    forall j | 0 <= j < |fs|
      ensures NodeOf(WritePhys(m, last, 0), base, fs, j)
    {
      assert AlmostNodeOf(m, base, fs, j);
      LinkWritten(m, base, j, k, last, 0);
    }
  }

  /** Pointing the last node on opens the list for another node. */
  lemma ChainOpened(m: Memory, base: nat, fs: seq<nat>, k: nat, last: nat, next: Word)
    requires base % 4096 == 0 && AlmostChain(m, base, fs) && |fs| == k + 1 && last == base + NODE * k
             && next == last + NODE
    ensures OpenChain(WritePhys(m, last, next), base, fs)
  {
    forall j | 0 <= j < |fs|
      ensures OpenNodeOf(WritePhys(m, last, next), base, fs, j)
    {
      assert AlmostNodeOf(m, base, fs, j);
      LinkWritten(m, base, j, k, last, next);
    }
  }

  /** Writing the link of node k changes that link and no other field of node j. */
  lemma LinkWritten(m: Memory, base: nat, j: nat, k: nat, last: nat, next: Word)
    requires base % 4096 == 0 && last == base + NODE * k
    ensures ReadPhys(WritePhys(m, last, next), base + NODE * j) == if j == k then next else ReadPhys(m, base + NODE * j)
    ensures ReadPhys(WritePhys(m, last, next), base + NODE * j + 16) == ReadPhys(m, base + NODE * j + 16)
  {
    NodeFields(base, k, j);
    NodeFields(base, j, k);
    PhysDistinct(m, last, next, base + NODE * j);
    PhysDistinct(m, last, next, base + NODE * j + 16);
  }

  /** A write inside the storage of n nodes leaves the rest alone. */
  lemma WriteSpares(m0: Memory, m: Memory, a: nat, w: Word, base: nat, n: nat, fs: seq<nat>)
    requires Cleared(m0, m, base, n, fs) && base % 4096 == 0 && base <= a < base + NODE * n
    ensures Cleared(m0, WritePhys(m, a, w), base, n, fs)
  {
    assert Storage(base, n, a / 4096);
    forall f: nat, i: nat | !Storage(base, n, f)
      ensures Read(WritePhys(m, a, w), f, i) == if f in fs && i < 64 then 0 else Read(m0, f, i)
    {
      assert Read(m, f, i) == if f in fs && i < 64 then 0 else Read(m0, f, i);
    }
  }

  lemma ClearOne(m0: Memory, m: Memory, m': Memory, base: nat, n: nat, fs: seq<nat>, page: nat)
    requires Cleared(m0, m, base, n, fs)
    requires forall f: nat, i: nat :: Read(m', f, i) == if f == page / 4096 && i < 64 then 0 else Read(m, f, i)
    ensures Cleared(m0, m', base, n + 1, fs + [page / 4096])
  {
    forall f: nat, i: nat | !Storage(base, n + 1, f)
      ensures Read(m', f, i) == if f in fs + [page / 4096] && i < 64 then 0 else Read(m0, f, i)
    {
      assert !Storage(base, n, f);
      assert Read(m, f, i) == if f in fs && i < 64 then 0 else Read(m0, f, i);
    }
  }

  // ---- append_free_list ----

  /** Storing p_addr in the node at the end of an open list. */
  lemma FrameStored(m: Memory, base: nat, fs: seq<nat>, temp: nat, page: Word)
    requires base % 4096 == 0 && OpenChain(m, base, fs) && temp == base + NODE * |fs| && page % 4096 == 0
    ensures AlmostChain(WritePhys(m, temp + 16, page), base, fs + [page / 4096])
    ensures OpenChain(WritePhys(m, temp + 16, page), base, fs)
  {
    var m' := WritePhys(m, temp + 16, page);
    NodeFields(base, |fs|, |fs|);
    WriteKeepsChain(m, temp + 16, page, base, fs);
    PhysDistinct(m, temp + 16, page, base + NODE * |fs| + 16);
    FrameAdded(m', base, fs, page / 4096);
  }

  /** The list that has been built so far. */
  ghost predicate Built(k: Kernel)
    reads k
  {
    && k.freeListTotalPages == |k.frames|
    && k.base % 4096 == 0
    && if k.freeList == 0 then k.frames == []
       else k.freeList == k.base && k.frames != [] && Chain(k.mem, k.base, k.frames)
  }

  /** The list with one node more, whose link points to the place of the next. */
  lemma NodeAppended(m: Memory, base: nat, fs: seq<nat>, temp: Word, page: Word, next: Word)
    requires base % 4096 == 0 && OpenChain(m, base, fs) && temp == base + NODE * |fs| && next == temp + NODE
    requires page % 4096 == 0
    ensures OpenChain(WritePhys(WritePhys(m, temp + 16, page), temp, next), base, fs + [page / 4096])
    ensures ReadPhys(WritePhys(WritePhys(m, temp + 16, page), temp, next), temp) == next
  {
    FrameStored(m, base, fs, temp, page);
    ChainOpened(WritePhys(m, temp + 16, page), base, fs + [page / 4096], |fs|, temp, next);
  }

  lemma RegionGrows(b: nat, n: nat, page: nat)
    requires page == 4096 * (b + n)
    ensures Region(b, n) + [page / 4096] == Region(b, n + 1)
  {
  }

  /** The region that contains physfree: its pages from physfree to its end become the list, which
      is stored in these pages themselves. */
  method BuildFirst(k: Kernel, end: Word, physfree: Word)
    requires physfree % 4096 == 0 && end % 4096 == 0 && 0 < physfree < end && end < WORD_LIMIT - 4096
    requires k.freeListTotalPages == 0
    modifies k`mem, k`freeList, k`freeListTotalPages, k`base, k`frames
    ensures Built(k) && k.freeList == k.base == physfree
    ensures k.frames == Region(physfree / 4096, (end - physfree) / 4096)
    ensures Cleared(old(k.mem), k.mem, k.base, |k.frames|, k.frames)
  {
    hide Storage, ReadPhys, WritePhys, Cleared;
    ghost var m0, b := k.mem, physfree / 4096;
    NothingCleared(m0, physfree, 0);
    k.freeList := physfree;
    k.base := physfree;
    k.frames := [];
    var temp: Word, last: Word, i := physfree, 0, physfree;
    while i < end
      invariant k.base == physfree && k.freeList == physfree
      invariant i == physfree + 4096 * |k.frames| && i <= end
      invariant k.frames == Region(b, |k.frames|) && k.freeListTotalPages == |k.frames|
      invariant temp == physfree + NODE * |k.frames|
      invariant k.frames != [] ==> last == physfree + NODE * (|k.frames| - 1)
      invariant OpenChain(k.mem, physfree, k.frames)
      invariant Cleared(m0, k.mem, physfree, |k.frames|, k.frames)
      decreases end - i
    {
      ghost var fs := k.frames;
      PageBound(i, end);
      ClearTwice(k, m0, fs, fs, i);
      NodeAppended(k.mem, physfree, fs, temp, i, temp + NODE);
      AppendSpares(m0, k.mem, temp, i, temp + NODE, physfree, |fs| + 1, fs + [i / 4096]);
      k.mem := WritePhys(k.mem, temp + 16, i);
      k.mem := WritePhys(k.mem, temp, temp + NODE);
      last := temp;
      temp := ReadPhys(k.mem, temp);
      k.freeListTotalPages := k.freeListTotalPages + 1;
      RegionGrows(b, |fs|, i);
      k.frames := fs + [i / 4096];
      i := i + PAGESIZE;
    }
    ghost var n: nat := |k.frames| - 1;
    FinishedIsAlmost(k.mem, physfree, k.frames);
    ChainClosed(k.mem, physfree, k.frames, n, last);
    WriteSpares(m0, k.mem, last, 0, physfree, |k.frames|, k.frames);
    temp := last;
    k.mem := WritePhys(k.mem, temp, 0);
  }

  lemma PageBound(i: nat, end: nat)
    requires i % 4096 == 0 && end % 4096 == 0 && i < end
    ensures i + 4096 <= end
  {
    assert i == 4096 * (i / 4096) && end == 4096 * (end / 4096);
  }

  /** The two memset calls on a page, by its physical and its kernel address: the list so far lies
      below the page and survives. */
  method ClearTwice(k: Kernel, ghost m0: Memory, ghost fs: seq<nat>, ghost cs: seq<nat>, page: Word)
    requires page % 4096 == 0 && k.base % 4096 == 0 && OpenChain(k.mem, k.base, fs) && k.base + NODE * |fs| <= page
    requires Cleared(m0, k.mem, k.base, |fs|, cs)
    modifies k`mem
    ensures OpenChain(k.mem, k.base, fs)
    ensures Cleared(m0, k.mem, k.base, |fs| + 1, cs + [page / 4096])
  {
    ghost var m := k.mem;
    k.mem := ClearHead(k.mem, page);
    k.mem := ClearHead(k.mem, page);
    ClearKeepsChain(m, k.mem, k.base, fs, page);
    ClearOne(m0, m, k.mem, k.base, |fs|, cs, page);
  }

  lemma AppendSpares(m0: Memory, m: Memory, temp: Word, page: Word, next: Word, base: nat, n: nat, fs: seq<nat>)
    requires Cleared(m0, m, base, n, fs) && base % 4096 == 0 && base <= temp && temp + NODE <= base + NODE * n
    ensures Cleared(m0, WritePhys(WritePhys(m, temp + 16, page), temp, next), base, n, fs)
  {
    WriteSpares(m0, m, temp + 16, page, base, n, fs);
    WriteSpares(m0, WritePhys(m, temp + 16, page), temp, next, base, n, fs);
  }

  /** One round of the second loop: link a new node behind the last one, clear the page, store it. */
  method AppendPage(k: Kernel, ghost m0: Memory, ghost cs: seq<nat>, last: Word, page: Word) returns (temp: Word)
    requires k.base % 4096 == 0 && page % 4096 == 0 && k.frames != []
    requires AlmostChain(k.mem, k.base, k.frames) && Cleared(m0, k.mem, k.base, |k.frames|, cs)
    requires last == k.base + NODE * (|k.frames| - 1) && k.base + NODE * (|k.frames| + 1) <= page
    modifies k`mem, k`freeListTotalPages, k`frames
    ensures k.frames == old(k.frames) + [page / 4096]
    ensures k.freeListTotalPages == old(k.freeListTotalPages) + 1
    ensures temp == k.base + NODE * (|k.frames| - 1)
    ensures AlmostChain(k.mem, k.base, k.frames)
    ensures Cleared(m0, k.mem, k.base, |k.frames|, cs + [page / 4096])
  {
    hide Storage, ReadPhys, WritePhys;
    ghost var fs, m1, b := k.frames, k.mem, k.base;
    ghost var at: nat := |fs| - 1;
    ChainOpened(m1, b, fs, at, last, last + NODE);
    WriteSpares(m0, m1, last, last + NODE, b, |fs|, cs);
    PhysDistinctSelf(m1, last, last + NODE);
    k.mem := WritePhys(k.mem, last, last + NODE);
    temp := ReadPhys(k.mem, last);
    ClearTwice(k, m0, fs, cs, page);
    FrameStored(k.mem, b, fs, temp, page);
    WriteSpares(m0, k.mem, temp + 16, page, b, |fs| + 1, cs + [page / 4096]);
    k.mem := WritePhys(k.mem, temp + 16, page);
    k.freeListTotalPages := k.freeListTotalPages + 1;
    k.frames := fs + [page / 4096];
  }

  /** Following the links from the first node ends at the last. */
  method LastNode(k: Kernel) returns (temp: Word)
    requires Built(k) && k.freeList != 0
    ensures temp == k.base + NODE * (|k.frames| - 1)
  {
    temp := k.freeList;
    ghost var j: nat := 0;
    while ReadPhys(k.mem, temp) != 0
      invariant j < |k.frames| && temp == k.base + NODE * j
      decreases |k.frames| - j
    {
      assert NodeOf(k.mem, k.base, k.frames, j);
      temp := ReadPhys(k.mem, temp);
      j := j + 1;
    }
    assert NodeOf(k.mem, k.base, k.frames, j);
  }

  /** Another region: its pages are appended, the page at its end included. */
  method BuildMore(k: Kernel, start: Word, end: Word)
    requires start % 4096 == 0 && end % 4096 == 0 && end < WORD_LIMIT - 4096
    requires Built(k) && k.freeList != 0
    requires start <= end ==> k.base + NODE * (|k.frames| + (end - start) / 4096 + 1) <= start
    modifies k`mem, k`freeListTotalPages, k`frames
    ensures Built(k) && k.freeList == k.base
    ensures k.frames == old(k.frames) + if start <= end then Region(start / 4096, (end - start) / 4096 + 1) else []
    ensures Cleared(old(k.mem), k.mem, k.base, |k.frames|, k.frames[|old(k.frames)|..])
  {
    ghost var m0, fs0, b := k.mem, k.frames, k.base;
    var last := LastNode(k);
    var i := start;
    ghost var n: nat := 0;
    FinishedIsAlmost(k.mem, b, fs0);
    while i <= end
      invariant i == start + 4096 * n && (start <= end ==> i <= end + 4096) && (start > end ==> n == 0)
      invariant k.frames == fs0 + Region(start / 4096, n) && k.freeListTotalPages == |k.frames|
      invariant last == b + NODE * (|k.frames| - 1)
      invariant AlmostChain(k.mem, b, k.frames)
      invariant Cleared(m0, k.mem, b, |k.frames|, Region(start / 4096, n))
      decreases end + 4096 - i
    {
      MorePages(start, end, i, n);
      MoreFrames(fs0, start, n, i);
      last := AppendPage(k, m0, Region(start / 4096, n), last, i);
      n := n + 1;
      i := i + PAGESIZE;
    }
    ghost var at: nat := |k.frames| - 1;
    ChainClosed(k.mem, b, k.frames, at, last);
    WriteSpares(m0, k.mem, last, 0, b, |k.frames|, Region(start / 4096, n));
    k.mem := WritePhys(k.mem, last, 0);
    assert k.frames[|fs0|..] == Region(start / 4096, n);
    if start <= end { AllPages(start, end, n); }
  }

  lemma PhysDistinctSelf(m: Memory, a: nat, w: Word)
    ensures ReadPhys(WritePhys(m, a, w), a) == w
  {
  }

  /** There is room for another node below the region while a page of it is left. */
  lemma MorePages(start: nat, end: nat, i: nat, n: nat)
    requires start % 4096 == 0 && end % 4096 == 0 && i == start + 4096 * n && i <= end
    ensures n + 1 <= (end - start) / 4096 + 1 && i % 4096 == 0
  {
    assert (end - start) / 4096 >= n;
  }

  lemma MoreFrames(fs0: seq<nat>, start: nat, n: nat, i: nat)
    requires start % 4096 == 0 && i == start + 4096 * n
    ensures Region(start / 4096, n) + [i / 4096] == Region(start / 4096, n + 1)
    ensures fs0 + Region(start / 4096, n) + [i / 4096] == fs0 + Region(start / 4096, n + 1)
  {
    RegionGrows(start / 4096, n, i);
  }

  lemma AllPages(start: nat, end: nat, n: nat)
    requires start % 4096 == 0 && end % 4096 == 0 && start <= end && end < start + 4096 * n <= end + 4096
    ensures n == (end - start) / 4096 + 1
  {
    assert end == 4096 * (end / 4096) && start == 4096 * (start / 4096);
  }

  // ---- Which frames the list gets ----

  /** The list while the memory map is read: its frames, and how many of them the first region gave. */
  datatype Found = Found(frames: seq<nat>, first: nat)

  /** What append_free_list adds for the region [start, end). */
  function Add(found: Found, start: nat, end: nat, physfree: nat): Found {
    var (a, e, p) := (RoundUp(start) / 4096, RoundUp(end) / 4096, RoundUp(physfree) / 4096);
    if found.first == 0 then
      if a <= p < e then Found(Region(p, e - p), e - p) else found
    else if p <= a <= e then Found(found.frames + Region(a, e - a + 1), found.first)
    else found
  }

  /** What append_free_list needs of a region: the one with physfree does not end there, and the list
      with a later one's nodes ends below its pages, which are cleared. */
  predicate RegionRoom(found: Found, start: nat, end: nat, physfree: nat) {
    var (a, e, p) := (RoundUp(start) / 4096, RoundUp(end) / 4096, RoundUp(physfree) / 4096);
    && e + 1 < FRAME_LIMIT
    && (found.first == 0 ==> !(a <= p == e))
    && (found.first > 0 && p <= a <= e ==>
          RoundUp(physfree) + NODE * |Add(found, start, end, physfree).frames| <= RoundUp(start))
  }

  /** What it takes for different pages: a later region starts above every page so far, and the list still
      fits into the first region. */
  predicate RegionFits(found: Found, start: nat, end: nat, physfree: nat) {
    var (a, e, p) := (RoundUp(start) / 4096, RoundUp(end) / 4096, RoundUp(physfree) / 4096);
    && e + 1 < FRAME_LIMIT
    && (found.first == 0 ==> !(a <= p == e))
    && (found.first > 0 && p <= a <= e ==>
          && found.frames != [] && found.frames[|found.frames| - 1] < a
          && NODE * |Add(found, start, end, physfree).frames| <= 4096 * found.first)
  }

  ghost predicate Increasing(fs: seq<nat>) {
    forall i, j :: 0 <= i < j < |fs| ==> fs[i] < fs[j]
  }

  /** The list's frames ascend, those of the first region are consecutive from physfree on, and the
      list fits into the first region. */
  ghost predicate FoundOk(found: Found, physfree: nat) {
    var p := RoundUp(physfree) / 4096;
    && Increasing(found.frames)
    && (forall j :: 0 <= j < |found.frames| ==> found.frames[j] < FRAME_LIMIT)
    && found.first <= |found.frames| && (found.first == 0 ==> found.frames == [])
    && (forall j :: 0 <= j < found.first ==> found.frames[j] == p + j)
    && NODE * |found.frames| <= 4096 * found.first
  }

  lemma AddKeeps(found: Found, start: nat, end: nat, physfree: nat)
    requires FoundOk(found, physfree) && RegionFits(found, start, end, physfree)
    ensures FoundOk(Add(found, start, end, physfree), physfree)
  {
  }

  ghost predicate AllDifferent(fs: seq<nat>) {
    forall i, j :: 0 <= i < j < |fs| ==> fs[i] != fs[j]
  }

  /** append_free_list adds the page at a later region's end as well. The frames on the list stay
      different exactly if none of them lies between the region's first page and that one. */
  lemma AddApart(found: Found, start: nat, end: nat, physfree: nat)
    requires AllDifferent(found.frames) && found.first > 0
    requires RoundUp(physfree) <= RoundUp(start) <= RoundUp(end)
    ensures AllDifferent(Add(found, start, end, physfree).frames)
        <==> forall i :: 0 <= i < |found.frames| ==> !(RoundUp(start) / 4096 <= found.frames[i] <= RoundUp(end) / 4096)
  {
    var (a, e, fs) := (RoundUp(start) / 4096, RoundUp(end) / 4096, found.frames);
    var gs := Add(found, start, end, physfree).frames;
    assert RoundUp(physfree) / 4096 <= a <= e;
    assert gs == fs + Region(a, e - a + 1);
    if i :| 0 <= i < |fs| && a <= fs[i] <= e {
      assert gs[i] == gs[|fs| + (fs[i] - a)];
    }
  }

  /** In a memory map whose regions ascend, that is exactly if the new region starts above the last page
      listed: the last n frames are the pages of the region before it. */
  lemma AscendingApart(found: Found, start: nat, end: nat, physfree: nat, n: nat)
    requires Increasing(found.frames) && found.first > 0 && 0 < n <= |found.frames|
    requires RoundUp(physfree) <= RoundUp(start) <= RoundUp(end)
    requires var fs := found.frames;
             fs[|fs| - n..] == Region(fs[|fs| - n], n) && fs[|fs| - n] <= RoundUp(start) / 4096
    ensures AllDifferent(Add(found, start, end, physfree).frames)
        <==> found.frames[|found.frames| - 1] < RoundUp(start) / 4096
  {
    var (a, e, fs) := (RoundUp(start) / 4096, RoundUp(end) / 4096, found.frames);
    AddApart(found, start, end, physfree);
    var m := |fs| - n;
    assert fs[|fs| - 1] == fs[m..][n - 1] == fs[m] + n - 1;
    if a <= fs[|fs| - 1] {
      assert fs[m + (a - fs[m])] == fs[m..][a - fs[m]] == a;
    }
  }

  /** append_free_list. */
  method AppendFreeList(k: Kernel, start: Word, end: Word, physfree: Word, ghost found: Found)
    requires Built(k) && (k.freeList == 0 <==> found.first == 0) && k.frames == found.frames
    requires k.freeList != 0 ==> k.base == RoundUp(physfree)
    requires RegionRoom(found, start, end, physfree)
    requires 0 < physfree && start < 0x10_0000_0000_0000 && physfree < 0x10_0000_0000_0000
    modifies k`mem, k`freeList, k`freeListTotalPages, k`base, k`frames
    ensures Built(k) && (k.freeList == 0 <==> Add(found, start, end, physfree).first == 0)
    ensures k.frames == Add(found, start, end, physfree).frames
    ensures k.freeList != 0 ==> k.base == RoundUp(physfree)
    ensures k.freeList == 0 ==> k.mem == old(k.mem)
    ensures k.freeList != 0 ==> Cleared(old(k.mem), k.mem, k.base, |k.frames|, k.frames[|old(k.frames)|..])
  {
    var start', end', physfree' := RoundUp(start), RoundUp(end), RoundUp(physfree);
    PageNumber(start');
    PageNumber(end');
    PageNumber(physfree');
    if k.freeList == 0 {
      if start' <= physfree' && end' >= physfree' {
        BuildFirst(k, end', physfree');
      }
    } else {
      if start' >= physfree' {
        if start' <= end' { RoomBelow(found, start, end, physfree); }
        BuildMore(k, start', end');
      } else {
        NothingCleared(k.mem, k.base, |k.frames|);
      }
    }
  }

  /** The list with the new region's nodes ends below that region. */
  lemma RoomBelow(found: Found, start: nat, end: nat, physfree: nat)
    requires RegionRoom(found, start, end, physfree) && found.first > 0
    requires RoundUp(physfree) <= RoundUp(start) <= RoundUp(end)
    ensures var (a, e) := (RoundUp(start), RoundUp(end));
            && (e - a) / 4096 == e / 4096 - a / 4096
            && RoundUp(physfree) + NODE * (|found.frames| + (e - a) / 4096 + 1) <= a
  {
    PageNumber(RoundUp(start));
    PageNumber(RoundUp(end));
    PageNumber(RoundUp(physfree));
  }

  /** A list that fits into the first region leaves that room. */
  lemma FitsLeavesRoom(found: Found, start: nat, end: nat, physfree: nat)
    requires FoundOk(found, physfree) && RegionFits(found, start, end, physfree)
    ensures RegionRoom(found, start, end, physfree)
  {
    var (a, e, p) := (RoundUp(start), RoundUp(end), RoundUp(physfree));
    PageNumber(a);
    PageNumber(e);
    PageNumber(p);
    if found.first > 0 && p / 4096 <= a / 4096 <= e / 4096 {
      assert found.frames[found.first - 1] == p / 4096 + found.first - 1;
      assert found.frames[found.first - 1] <= found.frames[|found.frames| - 1];
    }
  }

  lemma PageNumber(a: nat)
    requires a % 4096 == 0
    ensures a == 4096 * (a / 4096)
  {
  }

  lemma NothingCleared(m: Memory, base: nat, n: nat)
    ensures Cleared(m, m, base, n, [])
  {
  }

  /** How many frames hold the list of n nodes. */
  function ListPages(n: nat): (l: nat)
    ensures l <= n && NODE * n <= 4096 * l && (n > 0 ==> 4096 * l < NODE * n + 4096)
  {
    if NODE * n % 4096 != 0 then NODE * n / 4096 + 1 else NODE * n / 4096
  }

  /** set_free_list_head: the first frames of the list hold the list itself and are skipped. */
  method SetFreeListHead(k: Kernel)
    requires Built(k)
    modifies k`freeListHead, k`freeListPageLength, k`freeListTotalPages, k`pos
    ensures k.freeListPageLength == k.pos == ListPages(|k.frames|)
    ensures k.freeListTotalPages == |k.frames| - k.pos
    ensures k.freeListHead == if k.pos < |k.frames| then k.base + NODE * k.pos else 0
  {
    var freeListSize := k.freeListTotalPages * NODE;
    var pages := if freeListSize % PAGESIZE != 0 then freeListSize / PAGESIZE + 1 else freeListSize / PAGESIZE;
    assert pages == ListPages(|k.frames|);
    var temp := k.freeList;
    for i := 0 to pages
      invariant i <= |k.frames| && temp == if i < |k.frames| then k.base + NODE * i else 0
    {
      assert NodeOf(k.mem, k.base, k.frames, i);
      temp := ReadPhys(k.mem, temp);
    }
    k.freeListHead := temp;
    k.freeListPageLength := pages;
    k.freeListTotalPages := k.freeListTotalPages - pages;
    k.pos := pages;
  }

  /** The list does not eat itself: once its head has moved past the frames that hold it, no frame
      left on it is one of those. */
  lemma ListKeepsClear(found: Found, physfree: nat, j: nat)
    requires FoundOk(found, physfree) && ListPages(|found.frames|) <= j < |found.frames|
    ensures !Storage(RoundUp(physfree), |found.frames|, found.frames[j])
  {
    var l := ListPages(|found.frames|);
    if j < found.first {
      assert found.frames[j] == RoundUp(physfree) / 4096 + j;
    } else {
      assert l <= found.first;
      assert found.first > 0 && found.frames[found.first - 1] == RoundUp(physfree) / 4096 + found.first - 1;
      assert found.frames[j] > found.frames[found.first - 1];
    }
  }
}
