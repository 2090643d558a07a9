/** The blocks of the heap over any run: those of kmalloc and kmalloc_user, and the pages at which
    new PML4s are mapped. */
module HeapBlocks {
  import opened Words
  import opened Mmu
  import opened PageTree
  import opened AddressSpace
  import opened Mapping
  import opened Ranges
  import opened Spaces
  import opened Heap
  import opened Runs
  import opened Accounts

  /** A heap block: its first address and the frames behind its pages. */
  datatype Block = Block(start: Word, frames: seq<nat>)

  predicate Extending(op: Op) { op.Allocate? || op.CreateSpace? }

  /** The block that an operation puts at the top of the heap. */
  function BlockOf(y: System, op: Op): (b: Block)
    requires Enabled(y, op) && Extending(op)
    ensures b.start == y.top
  {
    Block(y.top, if op.Allocate? then Pages(y, op) else [HeadFrame(y.space)])
  }

  function Blocks(y: System, ops: seq<Op>): seq<Block>
    requires AllEnabled(y, ops)
    decreases |ops|
  {
    if ops == [] then []
    else (if Extending(ops[0]) then [BlockOf(y, ops[0])] else []) + Blocks(Do(y, ops[0]), ops[1..])
  }

  /** Block b lies on page boundaries within [low, high), and every address in it translates, in
      every address space, to the frame behind its page. */
  ghost predicate BlockBacked(y: System, b: Block, low: nat, high: nat) {
    && b.start % 4096 == 0 && low <= b.start && b.start + 4096 * |b.frames| <= high
    && forall r, i :: IsRoot(y.space.tables, r) && 0 <= i < |b.frames| ==> PageBacked(y, b, r, i)
  }

  predicate PageBacked(y: System, b: Block, r: nat, i: nat)
    requires i < |b.frames|
  {
    Follow(y.space.mem, r, Page(PageAt(b.start, i))) == Some(b.frames[i])
  }

  lemma BlockTop(y: System, op: Op)
    requires Enabled(y, op) && Extending(op)
    ensures Do(y, op).top == y.top + 4096 * |BlockOf(y, op).frames|
  {
  }

  lemma FreshPages(y: System, n: nat, flags: Word, i: nat)
    requires Good(y) && Enabled(y, Allocate(n, flags)) && i < n
    ensures var y1 := Do(y, Allocate(n, flags));
            Follow(y1.space.mem, y1.space.kroot, Page(PageAt(y.top, i))) == Some(Pages(y, Allocate(n, flags))[i])
  {
    hide MapRun, RunFrames, Translate, Inv, Page, Placed;
    var s, fs := y.space, RunFrames(y.space, y.root, y.top, n, flags);
    BlockOutcome(s, y.root, y.top, n, flags);
    HeapPagesFree(s, y.root, y.top, n);
    RootOfGood(y);
    var u := Page(PageAt(y.top, i));
    KernelAddress(PageAt(y.top, i));
    PlacedAt(y.top, fs, n, u);
    assert RunChange(s.mem, MapRun(s, y.root, y.top, n, flags).mem, y.root, y.top, fs, s.kroot, u);
  }

  /** The page of a new PML4 is mapped to its frame. */
  lemma FreshRoot(y: System, flags: Word)
    requires Good(y) && Enabled(y, CreateSpace(flags))
    ensures var y1 := Do(y, CreateSpace(flags));
            Follow(y1.space.mem, y1.space.kroot, Page(PageAt(y.top, 0))) == Some(HeadFrame(y.space))
  {
    hide MapNext, AddSpace, Translate, Inv, Page;
    var s, p, u := y.space, HeadFrame(y.space), Page(y.top);
    var s1 := MapNext(s, y.root, y.top, flags);
    CreateMaps(y, flags);
    AddSpaceOutcome(s1, p, flags);
    RootOfGood(y);
    assert PageAt(y.top, 0) == y.top;
    assert PathChange(s.mem, s1.mem, y.root, u, p, s.kroot, u);
    assert Follow(AddSpace(s1, p, flags).mem, s.kroot, u) == Follow(s1.mem, s.kroot, u);
  }

  lemma FreshBlock(y: System, op: Op, i: nat)
    requires Good(y) && Enabled(y, op) && Extending(op) && i < |BlockOf(y, op).frames|
    ensures var y1 := Do(y, op);
            Follow(y1.space.mem, y1.space.kroot, Page(PageAt(y.top, i))) == Some(BlockOf(y, op).frames[i])
  {
    hide Good, Follow, Page, Do;
    match op
    case Allocate(n, flags) => FreshPages(y, n, flags, i);
    case CreateSpace(flags) => FreshRoot(y, flags);
  }

  lemma PageInHeap(y: System, op: Op, i: nat)
    requires Good(y) && Enabled(y, op) && Extending(op) && i < |BlockOf(y, op).frames|
    ensures I4(PageAt(y.top, i)) == KERNEL_HALF && y.top % 4096 == 0
  {
    hide Inv, HeapOk;
    TopAligned4096(y);
    KernelAddress(PageAt(y.top, i));
  }

  /** A block stays where it is, for all address spaces, over the rest of the run. */
  lemma BlockStays(y: System, op: Op, ops: seq<Op>)
    requires Good(y) && Enabled(y, op) && Extending(op) && AllEnabled(Do(y, op), ops)
    ensures BlockBacked(Run(Do(y, op), ops), BlockOf(y, op), y.top, y.top + 4096 * |BlockOf(y, op).frames|)
  {
    hide Good, Do, BlockOf, Enabled, Page, Follow, PageBacked;
    var y1, b := Do(y, op), BlockOf(y, op);
    StepOutcome(y, op);
    RunKeeps(y1, ops);
    var y' := Run(y1, ops);
    TopAligned4096(y);
    forall r, i | IsRoot(y'.space.tables, r) && 0 <= i < |b.frames|
      ensures PageBacked(y', b, r, i)
    {
      PageStays(y, op, ops, r, i);
    }
  }

  lemma PageStays(y: System, op: Op, ops: seq<Op>, r: nat, i: nat)
    requires Good(y) && Enabled(y, op) && Extending(op) && AllEnabled(Do(y, op), ops)
    requires i < |BlockOf(y, op).frames| && IsRoot(Run(Do(y, op), ops).space.tables, r)
    ensures PageBacked(Run(Do(y, op), ops), BlockOf(y, op), r, i)
  {
    hide Good, Do, BlockOf, Enabled, Page, Follow;
    var y1, u := Do(y, op), Page(PageAt(y.top, i));
    StepOutcome(y, op);
    RunKeeps(y1, ops);
    var y' := Run(y1, ops);
    FreshBlock(y, op, i);
    PageInHeap(y, op, i);
    RootOfGood(y1);
    RootOfGood(y');
    MappingsStay(y1, ops, y1.space.kroot, u);
    SharedHalf(y'.space.mem, y'.space.tables, y'.space.kroot, r, u);
  }

  lemma {:induction false} BlockHolds(y: System, ops: seq<Op>, i: nat)
    requires Good(y) && AllEnabled(y, ops) && i < |Blocks(y, ops)|
    ensures BlockBacked(Run(y, ops), Blocks(y, ops)[i], y.top, Run(y, ops).top)
    decreases |ops|
  {
    hide Good, PageBacked, BlockOf, Step, Enabled, Do;
    var y1 := Do(y, ops[0]);
    StepOutcome(y, ops[0]);
    TopRises(y, y1, ops[0]);
    RunKeeps(y1, ops[1..]);
    if i == 0 && Extending(ops[0]) {
      BlockStays(y, ops[0], ops[1..]);
      BlockTop(y, ops[0]);
    } else {
      BlockHolds(y1, ops[1..], if Extending(ops[0]) then i - 1 else i);
    }
  }

  lemma {:induction false} BlocksFollow(y: System, ops: seq<Op>, i: nat, j: nat)
    requires Good(y) && AllEnabled(y, ops) && i < j < |Blocks(y, ops)|
    ensures Blocks(y, ops)[i].start + 4096 * |Blocks(y, ops)[i].frames| <= Blocks(y, ops)[j].start
    decreases |ops|
  {
    hide Good, PageBacked, BlockOf, Step, Enabled, Do;
    var y1 := Do(y, ops[0]);
    StepOutcome(y, ops[0]);
    if !Extending(ops[0]) {
      BlocksFollow(y1, ops[1..], i, j);
    } else if i > 0 {
      BlocksFollow(y1, ops[1..], i - 1, j - 1);
    } else {
      BlockTop(y, ops[0]);
      BlockHolds(y1, ops[1..], j - 1);
    }
  }

  // ---- Their frames ----

  /** A block's frames are taken by the operation that makes the block. */
  lemma BlockTaken(y: System, op: Op, i: nat)
    requires Good(y) && Enabled(y, op) && Extending(op) && i < |BlockOf(y, op).frames|
    ensures Taken(y.space, Do(y, op).space, BlockOf(y, op).frames[i])
  {
    hide Inv, MapRun, RunFrames, MapNext, AddSpace, HeapOk, UserOk;
    StepOutcome(y, op);
    match op
    case Allocate(n, flags) =>
      PageOfStep(y, op, i);
      ListStays(y, op);
      DataWasTaken(y.space, Do(y, op).space, Pages(y, op)[i]);
    case CreateSpace(flags) =>
      CreateTakes(y, flags);
  }

  lemma CreateTakes(y: System, flags: Word)
    requires Good(y) && Enabled(y, CreateSpace(flags))
    ensures Taken(y.space, Do(y, CreateSpace(flags)).space, HeadFrame(y.space))
  {
    hide MapDirect, Inv, Page, PathChange;
    HalfPresent(y.space);
    InvOf(y);
    TopIsShared(y);
    RoundOutcome(y.space, y.root, y.top, flags);
    HeadFacts(y.space);
    assert y.space.frames[y.space.pos] == HeadFrame(y.space);
  }

  lemma {:induction false} LaterTaken(y: System, ops: seq<Op>, i: nat, a: nat)
    requires Good(y) && AllEnabled(y, ops) && i < |Blocks(y, ops)| && a < |Blocks(y, ops)[i].frames|
    ensures Taken(y.space, Run(y, ops).space, Blocks(y, ops)[i].frames[a])
    decreases |ops|
  {
    hide Good, BlockOf, Enabled, Do, Taken, DataFrame;
    var y1 := Do(y, ops[0]);
    StepOutcome(y, ops[0]);
    RunKeeps(y1, ops[1..]);
    if i == 0 && Extending(ops[0]) {
      BlockTaken(y, ops[0], a);
    } else {
      LaterTaken(y1, ops[1..], if Extending(ops[0]) then i - 1 else i, a);
    }
    TakenLonger(y.space, y1.space, Run(y, ops).space, Blocks(y, ops)[i].frames[a]);
  }

  lemma TakenLonger(s: Space, s1: Space, s2: Space, f: nat)
    requires s1.frames == s.frames && s2.frames == s.frames && s.pos <= s1.pos <= s2.pos
    requires Taken(s, s1, f) || Taken(s1, s2, f)
    ensures Taken(s, s2, f)
  {
    if Taken(s, s1, f) {
      var j :| s.pos <= j < s1.pos && j < |s.frames| && s.frames[j] == f;
      assert s.pos <= j < s2.pos;
    } else {
      var j :| s1.pos <= j < s2.pos && j < |s1.frames| && s1.frames[j] == f;
      assert s.frames[j] == f;
    }
  }

  /** What is taken first differs from what is taken later. */
  lemma TakenApart(s: Space, s1: Space, s2: Space, f: nat, g: nat)
    requires s1.frames == s.frames && Taken(s, s1, f) && Taken(s1, s2, g)
    requires forall i, j :: 0 <= i < j < |s.frames| ==> s.frames[i] != s.frames[j]
    ensures f != g
  {
  }

  /** Different pages of different blocks lie in different frames. */
  lemma {:induction false} BlockFramesDiffer(y: System, ops: seq<Op>, i: nat, a: nat, j: nat, b: nat)
    requires Good(y) && AllEnabled(y, ops) && i < j < |Blocks(y, ops)|
    requires a < |Blocks(y, ops)[i].frames| && b < |Blocks(y, ops)[j].frames|
    ensures Blocks(y, ops)[i].frames[a] != Blocks(y, ops)[j].frames[b]
    decreases |ops|
  {
    hide Good, BlockOf, Enabled, Do, Taken, DataFrame;
    var y1 := Do(y, ops[0]);
    StepOutcome(y, ops[0]);
    if !Extending(ops[0]) {
      BlockFramesDiffer(y1, ops[1..], i, a, j, b);
    } else if i > 0 {
      BlockFramesDiffer(y1, ops[1..], i - 1, a, j - 1, b);
    } else {
      BlockTaken(y, ops[0], a);
      LaterTaken(y1, ops[1..], j - 1, b);
      InvOf(y);
      InvList(y.space);
      TakenApart(y.space, y1.space, Run(y, ops).space, Blocks(y, ops)[i].frames[a], Blocks(y, ops)[j].frames[b]);
    }
  }

  /** So do different pages of one block. */
  lemma {:induction false} OwnFramesDiffer(y: System, ops: seq<Op>, i: nat, a: nat, b: nat)
    requires Good(y) && AllEnabled(y, ops) && i < |Blocks(y, ops)| && a < b < |Blocks(y, ops)[i].frames|
    ensures Blocks(y, ops)[i].frames[a] != Blocks(y, ops)[i].frames[b]
    decreases |ops|
  {
    hide Good, Enabled, Do, Pages;
    var y1 := Do(y, ops[0]);
    StepOutcome(y, ops[0]);
    if i == 0 && Extending(ops[0]) {
      PagesOfStepDiffer(y, ops[0], a, b);
    } else {
      OwnFramesDiffer(y1, ops[1..], if Extending(ops[0]) then i - 1 else i, a, b);
    }
  }

  predicate FramesApart(bs: seq<Block>, i: nat, a: nat, j: nat, b: nat)
    requires i < |bs| && j < |bs| && a < |bs[i].frames| && b < |bs[j].frames|
  {
    bs[i].frames[a] != bs[j].frames[b]
  }

  /** The heap over any run: the blocks of kmalloc, kmalloc_user and the new PML4s are page-aligned and
      follow each other without overlap; no frame is behind two of their pages; and at the end of
      the run each page of each block is still mapped, in every address space, to its frame. */
  lemma HeapBlocksHold(y: System, ops: seq<Op>)
    requires Good(y) && AllEnabled(y, ops)
    ensures forall i :: 0 <= i < |Blocks(y, ops)| ==>
              BlockBacked(Run(y, ops), Blocks(y, ops)[i], y.top, Run(y, ops).top)
    ensures forall i, j :: 0 <= i < j < |Blocks(y, ops)| ==>
              Blocks(y, ops)[i].start + 4096 * |Blocks(y, ops)[i].frames| <= Blocks(y, ops)[j].start
    ensures var bs := Blocks(y, ops);
            forall i, a, j, b {:trigger FramesApart(bs, i, a, j, b)} ::
              0 <= i <= j < |bs| && 0 <= a < |bs[i].frames| && 0 <= b < |bs[j].frames| && (i < j || a < b) ==>
              FramesApart(bs, i, a, j, b)
  {
    hide *;
    var bs := Blocks(y, ops);
    forall i | 0 <= i < |bs|
      ensures BlockBacked(Run(y, ops), bs[i], y.top, Run(y, ops).top)
    {
      BlockHolds(y, ops, i);
    }
    forall i, j | 0 <= i < j < |bs|
      ensures bs[i].start + 4096 * |bs[i].frames| <= bs[j].start
    {
      BlocksFollow(y, ops, i, j);
    }
    forall i, a, j, b | 0 <= i <= j < |bs| && 0 <= a < |bs[i].frames| && 0 <= b < |bs[j].frames| && (i < j || a < b)
      ensures FramesApart(bs, i, a, j, b)
    {
      BlockPagesApart(y, ops, i, a, j, b);
    }
  }

  lemma BlockPagesApart(y: System, ops: seq<Op>, i: nat, a: nat, j: nat, b: nat)
    requires Good(y) && AllEnabled(y, ops) && i <= j < |Blocks(y, ops)|
    requires a < |Blocks(y, ops)[i].frames| && b < |Blocks(y, ops)[j].frames| && (i < j || a < b)
    ensures FramesApart(Blocks(y, ops), i, a, j, b)
  {
    hide Good, AllEnabled, Blocks;
    if i < j { BlockFramesDiffer(y, ops, i, a, j, b); } else { OwnFramesDiffer(y, ops, i, a, b); }
  }
}
