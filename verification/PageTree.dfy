/** The shape of the page tables of all address spaces: a forest of tables in which every
    table below a PML4 hangs from exactly one entry, apart from the self-reference in slot 510
    and the subtree in slot 511 that all PML4s share. */
module PageTree {
  import opened Words
  import opened Mmu

  /** Whose tables a table belongs to: those of one PML4, or the shared half. */
  datatype Owner = Shared | Private(root: nat)

  /** What a table frame is: its level (4 = PML4, 1 = page table), the entry it hangs from,
      its owner, and whether it is in the private half of a user address space. */
  datatype Node = Node(level: nat, parent: nat, index: nat, owner: Owner, user: bool)

  /** The table frames. */
  type Tables = map<nat, Node>

  predicate IsRoot(T: Tables, r: nat) {
    r in T && T[r].level == 4
  }

  function RootNode(r: nat, user: bool): Node {
    Node(4, 0, 0, Private(r), user)
  }

  /** What a table linked at entry i of table f has to be; k is the PML4 that owns the shared half. */
  function ChildNode(T: Tables, k: nat, f: nat, i: nat): Node
    requires f in T && T[f].level > 1
  {
    var n := T[f];
    if n.level == 4 && i == KERNEL_HALF then Node(3, k, KERNEL_HALF, Shared, false)
    else Node(n.level - 1, f, i, n.owner, n.user)
  }

  /** Entries are zero, or a frame number with the flags of the kernel or of user pages. */
  predicate GoodEntry(e: Word) {
    e == 0 || ((e % 4096 == 3 || e % 4096 == 7) && e / 4096 < FRAME_LIMIT)
  }

  predicate EntryOk(m: Memory, T: Tables, k: nat, f: nat, i: nat)
    requires f in T && k in T
  {
    var e := Read(m, f, i);
    if T[f].level == 4 && i == SELF then
      GoodEntry(e) && Present(e) && Target(e) == f
    else
      && GoodEntry(e)
      && (T[f].level == 4 && i == KERNEL_HALF ==> e == Read(m, k, KERNEL_HALF))
      && (Present(e) && T[f].level > 1 ==> Target(e) in T && T[Target(e)] == ChildNode(T, k, f, i))
  }

  predicate NodeOk(T: Tables, f: nat)
    requires f in T
  {
    && f < FRAME_LIMIT
    && 1 <= T[f].level <= 4
    && (T[f].level == 4 ==> T[f].owner == Private(f))
  }

  ghost predicate TreeOk(m: Memory, T: Tables, k: nat) {
    && IsRoot(T, k)
    && (forall f :: f in T ==> NodeOk(T, f))
    && (forall f, i :: f in T && 0 <= i < SLOTS ==> EntryOk(m, T, k, f, i))
  }

  /** Every entry in the private half of a user address space grants user access. */
  ghost predicate UserOk(m: Memory, T: Tables) {
    forall f, i :: f in T && 0 <= i < SLOTS ==> UserEntryOk(m, T, f, i)
  }

  predicate UserEntryOk(m: Memory, T: Tables, f: nat, i: nat)
    requires f in T
  {
    T[f].user && !(T[f].level == 4 && (i == SELF || i == KERNEL_HALF)) && Present(Read(m, f, i))
    ==> UserBit(Read(m, f, i))
  }

  // ---- Where a path leads ----

  /** What following the path t from root r can arrive at. */
  predicate Arrives(T: Tables, r: nat, t: Trail, f: nat)
    requires r in T
  {
    && f in T
    && T[f].level + t.Depth() >= 4
    && (T[f].owner == Shared || T[f].owner == Private(r))
    && (t.Direct() ==>
          && T[f].level + t.Depth() == 4
          && (T[f].owner == Shared <==> t.Down? && t.Head() == KERNEL_HALF)
          && T[f].user == (T[r].user && !(t.Down? && t.Head() == KERNEL_HALF)))
  }

  /** A path of at most three steps stays within the tables, and a direct one knows its level. */
  lemma {:induction false} FollowArrives(m: Memory, T: Tables, k: nat, r: nat, t: Trail)
    requires TreeOk(m, T, k) && IsRoot(T, r) && t.Legal() && t.Depth() <= 3
    ensures Follow(m, r, t).Some? ==> Arrives(T, r, t, Follow(m, r, t).value)
    decreases t
  {
    if t.Root? {
      assert NodeOk(T, r);
    } else {
      FollowArrives(m, T, k, r, t.up);
      if Follow(m, r, t.up).Some? {
        var g := Follow(m, r, t.up).value;
        assert EntryOk(m, T, k, g, t.index);
        assert NodeOk(T, g);
      }
    }
  }

  /** Two direct paths of table length that meet are the same path, and either start at the
      same root or run through the shared half. */
  lemma {:induction false} PathsMeet(m: Memory, T: Tables, k: nat, r: nat, t: Trail, q: nat, u: Trail)
    requires TreeOk(m, T, k) && IsRoot(T, r) && IsRoot(T, q)
    requires t.Legal() && u.Legal() && t.Depth() <= 3 && u.Depth() <= 3 && t.Direct() && u.Direct()
    requires Follow(m, r, t).Some? && Follow(m, q, u) == Follow(m, r, t)
    ensures t == u
    ensures r == q || (t.Down? && t.Head() == KERNEL_HALF)
    decreases t
  {
    FollowArrives(m, T, k, r, t);
    FollowArrives(m, T, k, q, u);
    if t.Down? && u.Down? {
      FollowArrives(m, T, k, r, t.up);
      FollowArrives(m, T, k, q, u.up);
      var f, g := Follow(m, r, t.up).value, Follow(m, q, u.up).value;
      assert EntryOk(m, T, k, f, t.index);
      assert EntryOk(m, T, k, g, u.index);
      if t.up.Down? && u.up.Down? {
        PathsMeet(m, T, k, r, t.up, q, u.up);
      }
    }
  }

  /** All address spaces agree below slot 511. */
  lemma {:induction false} SharedHalf(m: Memory, T: Tables, k: nat, r: nat, t: Trail)
    requires TreeOk(m, T, k) && IsRoot(T, r)
    requires t.Down? && t.Legal() && t.Head() == KERNEL_HALF
    ensures Follow(m, r, t) == Follow(m, k, t)
    decreases t
  {
    if t.up.Root? {
      assert EntryOk(m, T, k, r, t.index);
    } else {
      SharedHalf(m, T, k, r, t.up);
    }
  }

  // ---- Changes outside the tables ----

  ghost predicate SameTables(m: Memory, m': Memory, T: Tables) {
    forall f, i :: f in T && 0 <= i < SLOTS ==> Read(m', f, i) == Read(m, f, i)
  }

  lemma {:induction false} SameFollow(m: Memory, m': Memory, T: Tables, k: nat, r: nat, t: Trail)
    requires TreeOk(m, T, k) && IsRoot(T, r) && SameTables(m, m', T)
    requires t.Legal() && t.Depth() <= 4
    ensures Follow(m', r, t) == Follow(m, r, t)
    decreases t
  {
    if t.Down? {
      SameFollow(m, m', T, k, r, t.up);
      FollowArrives(m, T, k, r, t.up);
    }
  }

  lemma SameTree(m: Memory, m': Memory, T: Tables, k: nat)
    requires TreeOk(m, T, k) && SameTables(m, m', T)
    ensures TreeOk(m', T, k)
    ensures UserOk(m, T) ==> UserOk(m', T)
  {
    forall f, i | f in T && 0 <= i < SLOTS
      ensures EntryOk(m', T, k, f, i)
      ensures UserOk(m, T) ==> UserEntryOk(m', T, f, i)
    {
      assert EntryOk(m, T, k, f, i);
      assert Read(m', f, i) == Read(m, f, i);
      assert Read(m', k, KERNEL_HALF) == Read(m, k, KERNEL_HALF);
      if UserOk(m, T) {
        assert UserEntryOk(m, T, f, i);
      }
    }
  }

  // ---- Writing one entry ----

  ghost predicate ZeroFrame(m: Memory, f: nat) {
    forall i :: 0 <= i < SLOTS ==> Read(m, f, i) == 0
  }

  /** Whether entry i of table f may be set to e: a leaf of a page table, or a link from a
      higher table's empty entry to a zeroed frame that is no table yet. The entry in slot 511
      is only written while no other PML4 has copied it. */
  ghost predicate MayWrite(m: Memory, T: Tables, k: nat, f: nat, i: nat, e: Word) {
    && f in T && i < SLOTS && GoodEntry(e) && Present(e)
    && (T[f].level > 1 ==>
          && !Present(Read(m, f, i))
          && Target(e) !in T
          && ZeroFrame(m, Target(e))
          && !(T[f].level == 4 && i == SELF)
          && (T[f].level == 4 && i == KERNEL_HALF ==> f == k && forall r :: IsRoot(T, r) ==> r == k))
  }

  function TablesAfter(T: Tables, k: nat, f: nat, i: nat, e: Word): Tables
    requires f in T
  {
    if T[f].level > 1 then T[Target(e) := ChildNode(T, k, f, i)] else T
  }

  /** A write to an entry keeps the forest. */
  lemma WriteKeepsTree(m: Memory, T: Tables, k: nat, f: nat, i: nat, e: Word)
    requires TreeOk(m, T, k) && MayWrite(m, T, k, f, i, e)
    ensures TreeOk(Write(m, f, i, e), TablesAfter(T, k, f, i, e), k)
  {
    var m', T' := Write(m, f, i, e), TablesAfter(T, k, f, i, e);
    assert NodeOk(T, f);
    forall g | g in T'
      ensures NodeOk(T', g)
    {
      if g in T { assert NodeOk(T, g); }
    }
    forall g, j | g in T' && 0 <= j < SLOTS
      ensures EntryOk(m', T', k, g, j)
    {
      if g in T {
        assert EntryOk(m, T, k, g, j);
        assert NodeOk(T, g);
        assert IsRoot(T, g) && j == KERNEL_HALF ==> EntryOk(m, T, k, k, j);
        assert IsRoot(T, g) && f == k && i == KERNEL_HALF && T[f].level > 1 ==> g == k;
      } else {
        assert Read(m, g, j) == 0 == Read(m', g, j);
      }
    }
  }

  /** A write with the user bit keeps user access; so does any write to the shared half. */
  lemma WriteKeepsUser(m: Memory, T: Tables, k: nat, f: nat, i: nat, e: Word)
    requires TreeOk(m, T, k) && MayWrite(m, T, k, f, i, e) && UserOk(m, T)
    requires T[f].user && !(T[f].level == 4 && i == KERNEL_HALF) ==> UserBit(e)
    ensures UserOk(Write(m, f, i, e), TablesAfter(T, k, f, i, e))
  {
    var m', T' := Write(m, f, i, e), TablesAfter(T, k, f, i, e);
    forall g, j | g in T' && 0 <= j < SLOTS
      ensures UserEntryOk(m', T', g, j)
    {
      if g in T {
        assert UserEntryOk(m, T, g, j);
      } else {
        assert Read(m, g, j) == 0 == Read(m', g, j);
      }
    }
  }

  /** What a write changes: exactly the paths whose last step is the written entry. */
  lemma {:induction false} WriteEffect(m: Memory, T: Tables, k: nat, f: nat, i: nat, e: Word, r: nat, t: Trail)
    requires TreeOk(m, T, k) && MayWrite(m, T, k, f, i, e) && IsRoot(T, r)
    requires t.Legal() && t.Depth() <= 4
    ensures Follow(Write(m, f, i, e), r, t) ==
            if t.Down? && t.index == i && Follow(m, r, t.up) == Some(f) then Some(Target(e)) else Follow(m, r, t)
    decreases t
  {
    if t.Down? {
      var m' := Write(m, f, i, e);
      WriteEffect(m, T, k, f, i, e, r, t.up);
      FollowArrives(m, T, k, r, t.up);
      if t.up.Down? {
        FollowArrives(m, T, k, r, t.up.up);
        if t.up.index == i && Follow(m, r, t.up.up) == Some(f) {
          assert T[f].level > 1;
          assert Read(m, Target(e), t.index) == 0 == Read(m', Target(e), t.index);
        }
      }
    }
  }

  /** The same, seen from a direct path to the entry: root r sees the new target at that path,
      every other root sees it there only if the path runs through the shared half, and no
      other path changes. */
  lemma WriteAt(m: Memory, T: Tables, k: nat, r: nat, up: Trail, i: nat, e: Word, q: nat, u: Trail)
    requires TreeOk(m, T, k) && IsRoot(T, r) && IsRoot(T, q)
    requires Down(up, i).Legal() && up.Depth() <= 3 && Down(up, i).Direct()
    requires Follow(m, r, up).Some? && MayWrite(m, T, k, Follow(m, r, up).value, i, e)
    requires u.Legal() && u.Depth() <= 4
    ensures u.Direct() ==>
              Follow(Write(m, Follow(m, r, up).value, i, e), q, u) ==
              if u == Down(up, i) && Sees(r, q, u) then Some(Target(e)) else Follow(m, q, u)
    ensures q != r && Down(up, i).Head() != KERNEL_HALF ==>
              Follow(Write(m, Follow(m, r, up).value, i, e), q, u) == Follow(m, q, u)
  {
    var f := Follow(m, r, up).value;
    WriteEffect(m, T, k, f, i, e, q, u);
    FollowArrives(m, T, k, r, up);
    if u.Down? && u.index == i && Follow(m, q, u.up) == Some(f) {
      FollowArrives(m, T, k, q, u.up);
      if u.Direct() {
        PathsMeet(m, T, k, r, up, q, u.up);
      }
    } else if u == Down(up, i) && Sees(r, q, u) && q != r {
      if up.Down? {
        SharedHalf(m, T, k, r, up);
        SharedHalf(m, T, k, q, up);
      }
    }
  }

  /** Whether root q sees a change that root r makes on the direct path t. */
  predicate Sees(r: nat, q: nat, t: Trail)
    requires t.Down?
  {
    q == r || t.Head() == KERNEL_HALF
  }

  // ---- A new PML4 ----

  /** A frame laid out as create_new_kernel_pml4 and create_new_user_pml4 leave it: the shared
      entry, the self-reference and nothing else. */
  ghost predicate FreshRoot(m: Memory, k: nat, p: nat) {
    && p < FRAME_LIMIT
    && Read(m, p, KERNEL_HALF) == Read(m, k, KERNEL_HALF)
    && GoodEntry(Read(m, p, SELF)) && Present(Read(m, p, SELF)) && Target(Read(m, p, SELF)) == p
    && forall i :: 0 <= i < SELF ==> Read(m, p, i) == 0
  }

  lemma AddRoot(m: Memory, T: Tables, k: nat, p: nat, user: bool)
    requires TreeOk(m, T, k) && p !in T && FreshRoot(m, k, p)
    ensures TreeOk(m, T[p := RootNode(p, user)], k)
    ensures UserOk(m, T) ==> UserOk(m, T[p := RootNode(p, user)])
  {
    var T' := T[p := RootNode(p, user)];
    assert EntryOk(m, T, k, k, KERNEL_HALF);
    forall g | g in T'
      ensures NodeOk(T', g)
    {
      if g in T { assert NodeOk(T, g); }
    }
    forall g, j | g in T' && 0 <= j < SLOTS
      ensures EntryOk(m, T', k, g, j)
      ensures UserOk(m, T) ==> UserEntryOk(m, T', g, j)
    {
      if g in T {
        assert EntryOk(m, T, k, g, j);
        if UserOk(m, T) { assert UserEntryOk(m, T, g, j); }
      }
    }
  }

  /** In the new address space the shared half is mapped and nothing else. */
  lemma {:induction false} NewSpace(m: Memory, k: nat, p: nat, t: Trail)
    requires FreshRoot(m, k, p) && t.Down? && t.Legal() && t.Direct()
    ensures Follow(m, p, t) == if t.Head() == KERNEL_HALF then Follow(m, k, t) else None
    decreases t
  {
    if t.up.Down? {
      NewSpace(m, k, p, t.up);
    }
  }

  /** In a user address space, what is mapped outside slots 510 and 511 is accessible to users. */
  lemma {:induction false} MappedIsUser(m: Memory, T: Tables, k: nat, r: nat, t: Trail)
    requires TreeOk(m, T, k) && UserOk(m, T) && IsRoot(T, r) && T[r].user
    requires t.Legal() && t.Depth() <= 4 && t.Direct() && (t.Down? ==> t.Head() != KERNEL_HALF)
    requires Follow(m, r, t).Some?
    ensures UserPath(m, r, t)
    decreases t
  {
    if t.Down? {
      MappedIsUser(m, T, k, r, t.up);
      FollowArrives(m, T, k, r, t.up);
      assert UserEntryOk(m, T, Follow(m, r, t.up).value, t.index);
    }
  }

  /** While the shared entry lacks the U/S bit, users reach nothing in the shared half. */
  lemma {:induction false} SharedHalfGuarded(m: Memory, T: Tables, k: nat, r: nat, t: Trail)
    requires TreeOk(m, T, k) && IsRoot(T, r) && !UserBit(Read(m, k, KERNEL_HALF))
    requires t.Down? && t.Legal() && t.Head() == KERNEL_HALF
    ensures !UserPath(m, r, t)
    decreases t
  {
    if t.up.Root? {
      assert EntryOk(m, T, k, r, KERNEL_HALF);
    } else {
      SharedHalfGuarded(m, T, k, r, t.up);
    }
  }
}
