/** sys/tarfs.c: the archive in memory becomes a flat array of entries whose parent indexes form the
    tree of paths. */
module Tarfs {
  import opened CString
  import opened Archive

  /** An element of vfs; the name is the string in its buffer. */
  datatype Entry = Entry(name: seq<Byte>, parent: int, size: nat, kind: Byte, address: nat, index: nat, offset: nat)

  const VFS_SIZE: nat := 2048
  const NAME_SIZE: nat := 128

  /** "/" and "/rootfs/". */
  const ROOT: seq<Byte> := [47]
  const ROOTFS: seq<Byte> := [47, 114, 111, 111, 116, 102, 115, 47]

  // ---- Parents ----

  /** Going back from k, where the c-th slash is; 0 when there are not that many. */
  function SlashBack(s: seq<Byte>, k: nat, c: nat): (r: nat)
    requires k <= |s|
    ensures r <= k
  {
    if c == 0 || k == 0 then k else SlashBack(s, k - 1, if s[k - 1] == SLASH then c - 1 else c)
  }

  /** The name that get_parent_index looks for: up to the last slash for files, to the last but one
      for directories. */
  function ParentName(s: seq<Byte>, slices: nat): seq<Byte>
    requires s != []
  {
    var k := SlashBack(s, |s|, slices);
    if k < |s| then s[..k + 1] else s
  }

  /** The first entry with a name; -2 when there is none. */
  function FindName(v: seq<Entry>, name: seq<Byte>): (i: int)
    ensures i == -2 || 0 <= i < |v|
    ensures i >= 0 ==> v[i].name == name && forall j :: 0 <= j < i ==> v[j].name != name
    ensures i == -2 ==> forall j :: 0 <= j < |v| ==> v[j].name != name
  {
    FindFrom(v, name, 0)
  }

  function FindFrom(v: seq<Entry>, name: seq<Byte>, k: nat): (i: int)
    requires k <= |v|
    ensures i == -2 || k <= i < |v|
    ensures i >= 0 ==> v[i].name == name && forall j :: k <= j < i ==> v[j].name != name
    ensures i == -2 ==> forall j :: k <= j < |v| ==> v[j].name != name
    decreases |v| - k
  {
    if k == |v| then -2 else if v[k].name == name then k else FindFrom(v, name, k + 1)
  }

  // ---- What tarfs_init makes of the archive ----

  /** The two entries that are there before the archive is read. */
  function FirstEntries(): seq<Entry> {
    [Entry(ROOT, -1, 0, 5, 0, 0, 0), Entry(ROOTFS, 0, 0, 5, 0, 1, 512)]
  }

  function Slices(kind: Byte): nat { if kind == REGULAR then 1 else 2 }

  predicate Listed(kind: Byte) { kind == REGULAR || kind == DIRECTORY }

  /** The entry for the member whose header is at p of an image that starts at address `start`. */
  function EntryFor(v: seq<Entry>, start: nat, p: nat, name: seq<Byte>, size: nat, kind: Byte, offset: nat): Entry {
    var full := ROOTFS + name;
    Entry(full, FindName(v, ParentName(full, Slices(kind))), size, kind, start + p + size, |v|, offset)
  }

  function Size(img: seq<Byte>, p: nat): nat
    requires p + BLOCK <= |img|
  {
    if SizeAt(img, p) < 0 then 0 else SizeAt(img, p)
  }

  /** offset after the header at p. */
  function NextOffset(img: seq<Byte>, p: nat, offset: nat): nat
    requires p + BLOCK <= |img|
  {
    offset + BLOCK * (1 + DataBlocks(Size(img, p)))
  }

  /** vfs after the header at p. */
  function Visit(img: seq<Byte>, start: nat, p: nat, offset: nat, v: seq<Entry>): (v': seq<Entry>)
    requires p + BLOCK <= |img|
    ensures v <= v' && |v'| <= |v| + 1
  {
    var kind := KindAt(img, p);
    if !Listed(kind) then v
    else v + [EntryFor(v, start, p, NameAt(img, p), Size(img, p), kind, NextOffset(img, p, offset))]
  }

  /** vfs after the walk from p on. */
  function Scan(img: seq<Byte>, start: nat, p: nat, offset: nat, v: seq<Entry>): (v': seq<Entry>)
    ensures v <= v'
    decreases if p < |img| then |img| - p else 0
  {
    if Ends(img, p) then v
    else Scan(img, start, NextAt(img, p), NextOffset(img, p, offset), Visit(img, start, p, offset, v))
  }

  class Vfs {
    const vfs: array<Entry>
    var vfsPointer: nat

    ghost predicate Valid()
      reads this, vfs
    {
      vfs.Length == VFS_SIZE && vfsPointer <= VFS_SIZE && Named(vfs[..])
    }

    /** The entries in use. */
    ghost function Entries(): seq<Entry>
      reads this, vfs
      requires Valid()
    {
      vfs[..vfsPointer]
    }

    constructor ()
      ensures Valid() && fresh(vfs) && vfsPointer == 0
    {
      vfs := new Entry[VFS_SIZE](i => Entry([], 0, 0, 0, 0, 0, 0));
      vfsPointer := 0;
    }

    /** assign_vfs_slot. */
    method AssignVfsSlot(nindex: nat, nname: seq<Byte>, nparent: int, nsize: nat, ntype: Byte, naddress: nat,
                         noffset: nat)
      requires nindex < vfs.Length
      modifies vfs
      ensures vfs[..] == old(vfs[..])[nindex := Entry(Text(nname), nparent, nsize, ntype, naddress, nindex, noffset)]
    {
      vfs[nindex] := Entry(Text(nname), nparent, nsize, ntype, naddress, nindex, noffset);
    }

    /** The loop of get_parent_index that goes back over slice_count slashes. */
    method CutAt(fileName: seq<Byte>, sliceCount: nat) returns (i: nat)
      requires 0 in fileName && Text(fileName) != [] && 1 <= sliceCount <= 2
      ensures i < |Text(fileName)| && i == SlashBack(Text(fileName), |Text(fileName)|, sliceCount)
    {
      ghost var s := Text(fileName);
      var length := StrLen(fileName);
      var j: int := length - 1;
      var slices := sliceCount;
      while j >= 0 && slices != 0
        invariant -1 <= j < length
        invariant SlashBack(s, j + 1, slices) == SlashBack(s, length, sliceCount)
      {
        if fileName[j] == SLASH {
          slices := slices - 1;
        }
        j := j - 1;
      }
      SlashInside(s, sliceCount);
      i := j + 1;
    }

    /** get_parent_index. */
    method GetParentIndex(fileName: seq<Byte>, sliceCount: nat) returns (index: int)
      requires Valid() && 0 in fileName && 0 < |Text(fileName)| < NAME_SIZE - 1 && 1 <= sliceCount <= 2
      ensures index == FindName(Entries(), ParentName(Text(fileName), sliceCount))
    {
      ghost var s := Text(fileName);
      var i := CutAt(fileName, sliceCount);
      var fname := new Byte[NAME_SIZE];
      StrSubCpy(fname, fileName, 0, i + 1);
      fname[i + 1] := 0;
      CutText(fname[..], fileName, i + 1);
      index := IndexOf(fname[..]);
    }

    /** The buffer holds the first i characters. */
    lemma CutText(buffer: seq<Byte>, fileName: seq<Byte>, i: nat)
      requires 0 in fileName && i <= |Text(fileName)| && i < |buffer|
      requires buffer[..i] == fileName[..i] && buffer[i] == 0
      ensures 0 in buffer && Text(buffer) == Text(fileName)[..i]
    {
      hide Text;
      var t := Text(fileName)[..i];
      assert fileName[..i] == t;
      assert buffer[..i + 1] == t + [0];
      TextIs(buffer, t);
    }

    /** The search of get_parent_index. */
    method IndexOf(fname: seq<Byte>) returns (index: int)
      requires Valid() && 0 in fname
      ensures index == FindName(Entries(), Text(fname))
    {
      ghost var entries, f := Entries(), Text(fname);
      for j := 0 to vfsPointer
        invariant FindName(entries, f) == FindFrom(entries, f, j)
      {
        assert entries[j] == vfs[j];
        TextIs(vfs[j].name + [0], vfs[j].name);
        var r := StrCmp(fname, vfs[j].name + [0]);
        if r == 0 {
          return j;
        }
      }
      return -2;
    }

    /** A buffer of 128 characters that a string is copied to. */
    method Buffer(s: seq<Byte>) returns (buffer: array<Byte>)
      requires 0 in s && |Text(s)| < NAME_SIZE
      ensures fresh(buffer) && buffer.Length == NAME_SIZE && 0 in buffer[..] && Text(buffer[..]) == Text(s)
    {
      buffer := new Byte[NAME_SIZE](i => 0);
      StrCpy(buffer, 0, s);
      assert buffer[..][|Text(s)|] == 0;
      TextIs(buffer[..], Text(s));
    }

    /** The name of an archive member with "/rootfs/" in front: three copies through two buffers. */
    method RootedName(name: seq<Byte>) returns (fileName: array<Byte>)
      requires 0 in name && |Text(name)| < NAME_FIELD
      ensures fresh(fileName) && 0 in fileName[..] && Text(fileName[..]) == ROOTFS + Text(name)
    {
      hide Text;
      FirstNames();
      var rootDirectory := Buffer(ROOTFS + [0]);
      fileName := Buffer(name);
      StrRevCat(fileName[..], rootDirectory);
      StrCpy(fileName, 0, rootDirectory[..]);
      TextIs(fileName[..], ROOTFS + Text(name));
      assert fileName[..][|ROOTFS + Text(name)|] == 0;
    }

    /** One round of tarfs_init for a member that is listed. */
    method AddMember(img: seq<Byte>, start: nat, p: nat, offset: nat, fileName: seq<Byte>, fileSize: nat, kind: Byte)
      requires Valid() && vfsPointer < VFS_SIZE && p + BLOCK <= |img|
      requires 0 in fileName && Text(fileName) == ROOTFS + NameAt(img, p) && |NameAt(img, p)| < NAME_FIELD
      requires Listed(kind) && kind == KindAt(img, p) && fileSize == Size(img, p)
      modifies this`vfsPointer, vfs
      ensures Valid() && Entries() == old(Entries())
          + [EntryFor(old(Entries()), start, p, NameAt(img, p), Size(img, p), kind, offset)]
    {
      var parentIndex := GetParentIndex(fileName, if kind == REGULAR then 1 else 2);
      ghost var before := vfs[..];
      AssignVfsSlot(vfsPointer, fileName, parentIndex, fileSize, kind, start + p + fileSize, offset);
      assert Named(before) && 0 !in Text(fileName);
      vfsPointer := vfsPointer + 1;
      assert Entries() == before[..vfsPointer - 1] + [vfs[vfsPointer - 1]];
    }

    /** One round of tarfs_init: the member whose header is at p, and where to go on. */
    method ReadMember(img: seq<Byte>, start: nat, p: nat, offset: nat) returns (next: nat, offset': nat)
      requires Valid() && GoodHeader(img, p) && 0 in img[p..] && (Listed(KindAt(img, p)) ==> vfsPointer < VFS_SIZE)
      modifies this`vfsPointer, vfs
      ensures Valid() && Entries() == Visit(img, start, p, offset, old(Entries()))
      ensures next == NextAt(img, p) && offset' == NextOffset(img, p, offset)
    {
      hide OctalFits, Octal, ROOTFS, ParentName, FindName, Text;
      assert img[p + SIZE_FIELD..p + SIZE_FIELD + 12][..11] == SizeField(img, p);
      var fileSize := Oct2Bin(img[p + SIZE_FIELD..p + SIZE_FIELD + 12], 11);
      var typeflag := img[p + TYPE_FIELD];
      var fileName := RootedName(img[p..]);
      OffsetOf(fileSize, offset);
      if fileSize == 0 || fileSize % 512 == 0 {
        offset' := offset + (fileSize + 512);
      } else {
        offset' := offset + (fileSize + (512 - fileSize % 512) + 512);
      }
      assert offset' == NextOffset(img, p, offset);
      hide EntryFor, NextOffset;
      if typeflag == REGULAR || typeflag == DIRECTORY {
        AddMember(img, start, p, offset', fileName[..], fileSize, typeflag);
      }
      var fileNumber := (fileSize + 511) / 512 + 1;
      if typeflag == 0 {
        fileNumber := fileNumber + 1;
      }
      next := p + 512 * fileNumber;
    }

    /** tarfs_init: img is the archive and start its address. */
    method TarfsInit(img: seq<Byte>, start: nat)
      requires Valid() && Readable(img, 0) && |Scan(img, start, 0, 512, FirstEntries())| <= VFS_SIZE
      modifies this`vfsPointer, vfs
      ensures Valid() && Entries() == Scan(img, start, 0, 512, FirstEntries())
    {
      hide Scan, Readable, GoodHeader, Visit, NextAt, NextOffset;
      FirstNames();
      ghost var before := vfs[..];
      AssignVfsSlot(0, ROOT + [0], -1, 0, 5, 0, 0);
      AssignVfsSlot(1, ROOTFS + [0], 0, 0, 5, 0, 512);
      assert Named(before);
      vfsPointer := 2;
      assert Entries() == FirstEntries();
      var offset: nat := 512;
      var p: nat := 0;
      StartStops(img, p);
      while p < |img| && img[p] != 0
        invariant Valid() && Readable(img, p)
        invariant Scan(img, start, p, offset, Entries()) == Scan(img, start, 0, 512, FirstEntries())
        invariant p < |img| ==> p + BLOCK <= |img|
        decreases if p < |img| then |img| - p else 0
      {
        HeaderHere(img, start, p, offset, Entries());
        RoomLeft(img, start, p, offset, Entries());
        p, offset := ReadMember(img, start, p, offset);
        StartStops(img, p);
      }
      ScanEnds(img, start, p, offset, Entries());
    }

    /** tar_get_index: the slot at vfs_pointer is compared before the bound is checked. */
    method TarGetIndex(filename: seq<Byte>) returns (r: int)
      requires Valid() && vfsPointer < VFS_SIZE && 0 in filename
      ensures r == if FindName(Entries(), Text(filename)) == -2 then -1 else FindName(Entries(), Text(filename))
    {
      ghost var v, f := Entries(), Text(filename);
      var index := 0;
      TextIs(vfs[index].name + [0], vfs[index].name);
      var c := StrCmp(vfs[index].name + [0], filename);
      while c != 0 && index < vfsPointer
        invariant index <= vfsPointer && FindName(v, f) == FindFrom(v, f, index)
        invariant c == 0 <==> vfs[index].name == f
        decreases vfsPointer - index
      {
        assert v[index] == vfs[index];
        index := index + 1;
        TextIs(vfs[index].name + [0], vfs[index].name);
        c := StrCmp(vfs[index].name + [0], filename);
      }
      if index < vfsPointer {
        assert v[index] == vfs[index];
        return index;
      }
      return -1;
    }

    /** tar_ls, without what it prints. */
    method TarLs(filename: seq<Byte>) returns (fileCount: nat)
      requires Valid() && vfsPointer < VFS_SIZE && 0 in filename
      ensures fileCount == CountParent(Entries(),
                if FindName(Entries(), Text(filename)) == -2 then -1 else FindName(Entries(), Text(filename)))
    {
      hide CountParent, FindName, Named, Text;
      var parentIndex := TarGetIndex(filename);
      var index := 0;
      fileCount := 0;
      CountNone(parentIndex);
      while index < vfsPointer
        invariant index <= vfsPointer && fileCount == CountParent(vfs[..][..index], parentIndex)
      {
        CountStep(vfs[..], index, parentIndex);
        if vfs[index].parent == parentIndex {
          fileCount := fileCount + 1;
        }
        index := index + 1;
      }
      assert vfs[..][..index] == Entries();
    }
  }

  /** How many entries have the parent index i. */
  function CountParent(v: seq<Entry>, i: int): nat {
    if v == [] then 0 else CountParent(v[..|v| - 1], i) + if v[|v| - 1].parent == i then 1 else 0
  }

  lemma CountNone(i: int)
    ensures CountParent([], i) == 0
  {
  }

  lemma CountStep(v: seq<Entry>, n: nat, i: int)
    requires n < |v|
    ensures CountParent(v[..n + 1], i) == CountParent(v[..n], i) + if v[n].parent == i then 1 else 0
  {
    assert v[..n + 1][..n] == v[..n];
  }

  lemma FirstNames()
    ensures Text(ROOT + [0]) == ROOT && Text(ROOTFS + [0]) == ROOTFS
  {
    TextIs(ROOT + [0], ROOT);
    TextIs(ROOTFS + [0], ROOTFS);
  }

  /** A listed member makes the result longer. */
  lemma RoomLeft(img: seq<Byte>, start: nat, p: nat, offset: nat, v: seq<Entry>)
    requires Readable(img, p) && p < |img| && img[p] != 0
    ensures Listed(KindAt(img, p)) ==> |v| < |Scan(img, start, p, offset, v)|
  {
  }

  lemma StartStops(img: seq<Byte>, p: nat)
    requires Readable(img, p)
    ensures p < |img| ==> p + BLOCK <= |img|
  {
  }

  lemma HeaderHere(img: seq<Byte>, start: nat, p: nat, offset: nat, v: seq<Entry>)
    requires Readable(img, p) && p < |img| && img[p] != 0
    ensures GoodHeader(img, p) && Readable(img, NextAt(img, p)) && 0 in img[p..]
    ensures Scan(img, start, p, offset, v)
            == Scan(img, start, NextAt(img, p), NextOffset(img, p, offset), Visit(img, start, p, offset, v))
  {
    assert img[p..][|NameAt(img, p)|] == 0;
  }

  lemma ScanEnds(img: seq<Byte>, start: nat, p: nat, offset: nat, v: seq<Entry>)
    requires Readable(img, p) && (p >= |img| || img[p] == 0)
    ensures Scan(img, start, p, offset, v) == v
  {
  }

  /** Both ways of advancing the offset go to the end of the last data block. */
  lemma OffsetOf(size: nat, offset: nat)
    ensures offset + BLOCK * (1 + DataBlocks(size))
            == offset + if size % 512 == 0 then size + 512 else size + (512 - size % 512) + 512
  {
  }

  /** Names are strings. */
  ghost predicate Named(v: seq<Entry>) {
    forall i :: 0 <= i < |v| ==> 0 !in v[i].name
  }

  lemma {:induction false} SlashInside(s: seq<Byte>, c: nat)
    requires s != [] && c > 0
    ensures SlashBack(s, |s|, c) < |s|
  {
  }

  // ---- Decoding inverts encoding ----

  /** vfs after the members ms, the first of whose headers is at p. */
  function Decoded(start: nat, p: nat, ms: seq<Member>, v: seq<Entry>): (v': seq<Entry>)
    ensures v <= v'
    decreases |ms|
  {
    if ms == [] then v
    else
      var m, next := ms[0], p + Extent(ms[0]);
      Decoded(start, next, ms[1..],
              if Listed(m.kind) then v + [EntryFor(v, start, p, m.name, m.size, m.kind, BLOCK + next)] else v)
  }

  /** At every header the walk has offset == 512 + p, and what it makes of the archive is what the
      members are. */
  lemma {:induction false} ScanDecodes(img: seq<Byte>, start: nat, p: nat, ms: seq<Member>, v: seq<Entry>)
    requires Laid(img, p, ms) && NoNul(ms)
    ensures Scan(img, start, p, BLOCK + p, v) == Decoded(start, p, ms, v)
    decreases |ms|
  {
    hide *;
    if ms == [] {
      NothingLeft(img, start, p, v);
    } else {
      LaidStep(img, p, ms);
      var m := ms[0];
      var next := p + Extent(m);
      ScanHeader(img, start, p, m, v);
      DecodedStep(start, p, ms, v);
      ScanDecodes(img, start, next, ms[1..],
                  if Listed(m.kind) then v + [EntryFor(v, start, p, m.name, m.size, m.kind, BLOCK + next)] else v);
    }
  }

  lemma LaidStep(img: seq<Byte>, p: nat, ms: seq<Member>)
    requires Laid(img, p, ms) && NoNul(ms) && ms != []
    ensures HeaderIs(img, p, ms[0]) && ms[0].kind != 0
    ensures Laid(img, p + Extent(ms[0]), ms[1..]) && NoNul(ms[1..])
  {
    hide HeaderIs, Extent;
  }

  lemma NothingLeft(img: seq<Byte>, start: nat, p: nat, v: seq<Entry>)
    requires Laid(img, p, [])
    ensures Scan(img, start, p, BLOCK + p, v) == v == Decoded(start, p, [], v)
  {
  }

  lemma DecodedStep(start: nat, p: nat, ms: seq<Member>, v: seq<Entry>)
    requires ms != []
    ensures var m, next := ms[0], p + Extent(ms[0]);
            Decoded(start, p, ms, v) == Decoded(start, next, ms[1..],
              if Listed(m.kind) then v + [EntryFor(v, start, p, m.name, m.size, m.kind, BLOCK + next)] else v)
  {
  }

  lemma ScanHeader(img: seq<Byte>, start: nat, p: nat, m: Member, v: seq<Entry>)
    requires HeaderIs(img, p, m) && m.kind != 0
    ensures var next := p + Extent(m);
            Scan(img, start, p, BLOCK + p, v) == Scan(img, start, next, BLOCK + next,
              if Listed(m.kind) then v + [EntryFor(v, start, p, m.name, m.size, m.kind, BLOCK + next)] else v)
  {
    hide HeaderIs, GoodHeader, EntryFor, Extent, NextAt, NextOffset, Size, KindAt, Ends, NameAt;
    HeaderFacts(img, p, m);
    HeaderSize(img, p, m);
  }

  lemma HeaderSize(img: seq<Byte>, p: nat, m: Member)
    requires HeaderIs(img, p, m)
    ensures p + BLOCK <= |img| && Size(img, p) == m.size && KindAt(img, p) == m.kind
    ensures NextOffset(img, p, BLOCK + p) == BLOCK + (p + Extent(m))
  {
  }

  /** The members that are listed. */
  function ListedOf(ms: seq<Member>): seq<Member> {
    if ms == [] then [] else (if Listed(ms[0].kind) then [ms[0]] else []) + ListedOf(ms[1..])
  }

  /** Every file and directory gets an entry with its name, size and type, in order, and nothing else does. */
  lemma {:induction false} DecodedRecords(start: nat, p: nat, ms: seq<Member>, v: seq<Entry>)
    ensures Recorded(Decoded(start, p, ms, v), |v|, ListedOf(ms))
    decreases |ms|
  {
    hide *;
    if ms == [] {
      NothingRecorded(start, p, v);
    } else {
      var m, next := ms[0], p + Extent(ms[0]);
      DecodedStep(start, p, ms, v);
      ListedStep(ms);
      if Listed(m.kind) {
        var e := EntryFor(v, start, p, m.name, m.size, m.kind, BLOCK + next);
        DecodedRecords(start, next, ms[1..], v + [e]);
        EntryRecords(v, start, p, m, BLOCK + next);
        OneMoreRecord(v, e, Decoded(start, p, ms, v), m, ListedOf(ms[1..]));
      } else {
        DecodedRecords(start, next, ms[1..], v);
        assert ListedOf(ms) == ListedOf(ms[1..]);
      }
    }
  }

  lemma NothingRecorded(start: nat, p: nat, v: seq<Entry>)
    ensures Recorded(Decoded(start, p, [], v), |v|, ListedOf([]))
  {
  }

  /** Whether r has entries for the members l from n on, and no more. */
  ghost predicate Recorded(r: seq<Entry>, n: nat, l: seq<Member>) {
    |r| == n + |l| && forall i :: 0 <= i < |l| ==> Records(r[n + i], l[i])
  }

  lemma OneMoreRecord(v: seq<Entry>, e: Entry, r: seq<Entry>, m: Member, l: seq<Member>)
    requires v + [e] <= r && Records(e, m) && Recorded(r, |v + [e]|, l)
    ensures Recorded(r, |v|, [m] + l)
  {
    hide Records;
    assert r[|v|] == (v + [e])[|v|];
    forall i | 0 <= i < |l| + 1
      ensures Records(r[|v| + i], ([m] + l)[i])
    {
      if i > 0 { assert Records(r[|v + [e]| + (i - 1)], l[i - 1]); }
    }
  }

  /** Whether an entry has the name, size and type of a member. */
  predicate Records(e: Entry, m: Member) {
    e.name == [47, 114, 111, 111, 116, 102, 115, 47] + m.name && e.size == m.size && e.kind == m.kind
  }

  lemma EntryRecords(v: seq<Entry>, start: nat, p: nat, m: Member, offset: nat)
    ensures Records(EntryFor(v, start, p, m.name, m.size, m.kind, offset), m)
  {
  }

  lemma ListedStep(ms: seq<Member>)
    requires ms != []
    ensures ListedOf(ms) == (if Listed(ms[0].kind) then [ms[0]] else []) + ListedOf(ms[1..])
  {
  }

  /** Round trip: an archive written from members without NUL typeflags is read back as these members. */
  lemma DecodeInvertsEncode(ms: seq<Member>, data: seq<seq<Byte>>, trailer: seq<Byte>, start: nat)
    requires Fit(ms, data) && NoNul(ms) && (trailer == [] || (|trailer| >= BLOCK && trailer[0] == 0))
    ensures var img := Encode(ms, data) + trailer; var r := Scan(img, start, 0, BLOCK, FirstEntries());
            && Readable(img, 0) && Walk(img, 0) == Positions(0, ms)
            && r == Decoded(start, 0, ms, FirstEntries())
            && |r| == 2 + |ListedOf(ms)|
            && forall i :: 0 <= i < |ListedOf(ms)| ==> Records(r[2 + i], ListedOf(ms)[i])
  {
    hide Scan, Decoded, ListedOf, Laid, Walk, Positions, Readable, Records;
    EncodedIsLaid([], ms, data, trailer);
    assert [] + Encode(ms, data) + trailer == Encode(ms, data) + trailer;
    WalkVisitsHeaders(Encode(ms, data) + trailer, 0, ms);
    ScanDecodes(Encode(ms, data) + trailer, start, 0, ms, FirstEntries());
    DecodedRecords(start, 0, ms, FirstEntries());
  }

  // ---- The contents of the files ----

  /** The contents of the members that are listed. */
  function ListedData(ms: seq<Member>, data: seq<seq<Byte>>): (l: seq<seq<Byte>>)
    requires |ms| == |data|
    ensures |l| == |ListedOf(ms)|
  {
    if ms == [] then [] else (if Listed(ms[0].kind) then [data[0]] else []) + ListedData(ms[1..], data[1..])
  }

  /** The contents begin as many blocks before `offset` as the header and they take; `address` is where they
      begin exactly if there are 512 bytes of them. */
  predicate FileAt(img: seq<Byte>, start: nat, e: Entry, contents: seq<Byte>) {
    var c := e.offset - 512 * (1 + (e.size + 511) / 512);
    && 0 <= c && c + e.size <= |img| && img[c..c + e.size] == contents
    && (e.address == start + c <==> e.size == 512)
  }

  ghost predicate FilesAt(img: seq<Byte>, start: nat, r: seq<Entry>, n: nat, l: seq<seq<Byte>>) {
    |r| == n + |l| && forall i :: 0 <= i < |l| ==> FileAt(img, start, r[n + i], l[i])
  }

  lemma OneMoreFile(img: seq<Byte>, start: nat, v: seq<Entry>, e: Entry, r: seq<Entry>, d: seq<Byte>, l: seq<seq<Byte>>)
    requires v + [e] <= r && FileAt(img, start, e, d) && FilesAt(img, start, r, |v + [e]|, l)
    ensures FilesAt(img, start, r, |v|, [d] + l)
  {
    hide FileAt;
    assert r[|v|] == (v + [e])[|v|];
    forall i | 0 <= i < |l| + 1
      ensures FileAt(img, start, r[|v| + i], ([d] + l)[i])
    {
      if i > 0 { assert FileAt(img, start, r[|v + [e]| + (i - 1)], l[i - 1]); }
    }
  }

  /** The member at the end of `before`. */
  lemma FileIsThere(before: seq<Byte>, m: Member, d: seq<Byte>, rest: seq<Byte>, start: nat, v: seq<Entry>)
    requires |m.name| < NAME_FIELD && |d| == m.size
    ensures var p := |before|;
            FileAt(before + Encoded(m, d) + rest, start,
                   EntryFor(v, start, p, m.name, m.size, m.kind, BLOCK + (p + Extent(m))), d)
  {
    hide FindName, ParentName;
    DataInside(before, m, d, rest);
  }

  lemma DataInside(before: seq<Byte>, m: Member, d: seq<Byte>, rest: seq<Byte>)
    requires |m.name| < NAME_FIELD && |d| == m.size
    ensures var (p, img) := (|before|, before + Encoded(m, d) + rest);
            p + BLOCK + m.size <= |img| && img[p + BLOCK..p + BLOCK + m.size] == d
  {
    hide Header;
    var h, pad := Header(m), Zeros(BLOCK * DataBlocks(m.size) - m.size);
    var img := before + Encoded(m, d) + rest;
    assert img == (before + h) + d + (pad + rest);
    assert |before + h| == |before| + BLOCK;
  }

  lemma {:induction false} FilesFound(before: seq<Byte>, ms: seq<Member>, data: seq<seq<Byte>>, trailer: seq<Byte>,
                                      start: nat, v: seq<Entry>)
    requires Fit(ms, data)
    ensures FilesAt(before + Encode(ms, data) + trailer, start, Decoded(start, |before|, ms, v), |v|,
                    ListedData(ms, data))
    decreases |ms|
  {
    hide FileAt, FilesAt, Encoded, Encode, Decoded, EntryFor, Listed, ListedData, ListedOf, Extent, GoodMember;
    var img, p := before + Encode(ms, data) + trailer, |before|;
    if ms == [] {
      NoFiles(img, start, p, v, data);
    } else {
      FirstFile(before, ms, data, trailer);
      var m, first, rest := ms[0], Encoded(ms[0], data[0]), Encode(ms[1..], data[1..]) + trailer;
      DecodedStep(start, p, ms, v);
      if Listed(m.kind) {
        var e := EntryFor(v, start, p, m.name, m.size, m.kind, BLOCK + (p + Extent(m)));
        FileIsThere(before, m, data[0], rest, start, v);
        FilesFound(before + first, ms[1..], data[1..], trailer, start, v + [e]);
        OneMoreFile(img, start, v, e, Decoded(start, p, ms, v), data[0], ListedData(ms[1..], data[1..]));
      } else {
        FilesFound(before + first, ms[1..], data[1..], trailer, start, v);
        assert ListedData(ms, data) == ListedData(ms[1..], data[1..]);
      }
    }
  }

  lemma FirstFile(before: seq<Byte>, ms: seq<Member>, data: seq<seq<Byte>>, trailer: seq<Byte>)
    requires Fit(ms, data) && ms != []
    ensures |ms[0].name| < NAME_FIELD && |data[0]| == ms[0].size && Fit(ms[1..], data[1..])
    ensures var (first, rest) := (Encoded(ms[0], data[0]), Encode(ms[1..], data[1..]));
            && before + Encode(ms, data) + trailer == before + first + (rest + trailer)
            && before + Encode(ms, data) + trailer == (before + first) + rest + trailer
            && |before + first| == |before| + Extent(ms[0])
    ensures ListedData(ms, data)
            == (if Listed(ms[0].kind) then [data[0]] else []) + ListedData(ms[1..], data[1..])
  {
    hide Encoded, ListedOf;
    var first, rest := Encoded(ms[0], data[0]), Encode(ms[1..], data[1..]);
    assert Encode(ms, data) == first + rest;
    assert before + (first + rest) + trailer == before + first + (rest + trailer);
    assert before + (first + rest) + trailer == (before + first) + rest + trailer;
  }

  lemma NoFiles(img: seq<Byte>, start: nat, p: nat, v: seq<Entry>, data: seq<seq<Byte>>)
    requires data == []
    ensures FilesAt(img, start, Decoded(start, p, [], v), |v|, ListedData([], data))
  {
  }

  lemma TwoEntries()
    ensures |FirstEntries()| == 2
  {
  }

  /** From vfs alone the contents of each file of the archive can be found again in the image. */
  lemma ContentsFound(ms: seq<Member>, data: seq<seq<Byte>>, trailer: seq<Byte>, start: nat)
    requires Fit(ms, data) && NoNul(ms) && (trailer == [] || (|trailer| >= BLOCK && trailer[0] == 0))
    ensures var img := Encode(ms, data) + trailer;
            FilesAt(img, start, Scan(img, start, 0, BLOCK, FirstEntries()), 2, ListedData(ms, data))
  {
    hide Scan, Decoded, FilesAt, Encode, Laid, NoNul, FirstEntries, ListedData, Fit;
    EncodedIsLaid([], ms, data, trailer);
    assert [] + Encode(ms, data) + trailer == Encode(ms, data) + trailer;
    ScanDecodes(Encode(ms, data) + trailer, start, 0, ms, FirstEntries());
    TwoEntries();
    FilesFound([], ms, data, trailer, start, FirstEntries());
  }

  // ---- The tree of paths ----

  /** q is the longest proper prefix of s that ends with a slash. */
  predicate IsParent(q: seq<Byte>, s: seq<Byte>) {
    && q < s && q != [] && q[|q| - 1] == SLASH
    && forall k :: |q| <= k < |s| - 1 ==> s[k] != SLASH
  }

  lemma ParentUnique(q: seq<Byte>, r: seq<Byte>, s: seq<Byte>)
    requires IsParent(q, s) && IsParent(r, s)
    ensures q == r
  {
    assert s[|q| - 1] == q[|q| - 1] && s[|r| - 1] == r[|r| - 1];
    assert |q| == |r|;
  }

  lemma {:induction false} SlashIsLast(s: seq<Byte>, k: nat)
    requires 0 < k <= |s| && s[0] == SLASH
    ensures var r := SlashBack(s, k, 1); r < k && s[r] == SLASH && forall j :: r < j < k ==> s[j] != SLASH
    decreases k
  {
    if s[k - 1] != SLASH {
      SlashIsLast(s, k - 1);
    }
  }

  /** Names of directories, type '5' in the format, end with a slash, those of files, type '0', do not. */
  predicate Shaped(name: seq<Byte>, kind: Byte)
    requires name != []
  {
    (kind == 48 ==> name[|name| - 1] != SLASH) && (kind == 53 ==> name[|name| - 1] == SLASH)
  }

  lemma {:induction false} TwoSlashes(s: seq<Byte>, k: nat)
    requires 0 < k <= |s| && s[0] == SLASH
    ensures SlashBack(s, k, 2) == SlashBack(s, SlashBack(s, k, 1), 1)
    decreases k
  {
    if s[k - 1] != SLASH {
      TwoSlashes(s, k - 1);
    }
  }

  lemma FileParent(s: seq<Byte>)
    requires |s| >= 2 && s[0] == SLASH
    ensures IsParent(ParentName(s, 1), s) <==> s[|s| - 1] != SLASH
  {
    hide SlashBack;
    SlashIsLast(s, |s|);
  }

  lemma DirectoryParent(s: seq<Byte>, k: nat)
    requires 0 < k < |s| - 1 && s[0] == SLASH && s[k] == SLASH
    ensures IsParent(ParentName(s, 2), s) <==> s[|s| - 1] == SLASH
  {
    hide SlashBack;
    SlashIsLast(s, |s|);
    TwoSlashes(s, |s|);
    SlashIsLast(s, SlashBack(s, |s|, 1));
  }

  /** get_parent_index looks for the name of the parent directory exactly if the name has the shape
      that it is told: of a file with a slash at its end it looks for the name itself, of a directory
      without one for the directory above the parent. */
  lemma ParentNameIsParent(name: seq<Byte>, kind: Byte)
    requires name != [] && Listed(kind)
    ensures IsParent(ParentName(ROOTFS + name, Slices(kind)), ROOTFS + name) <==> Shaped(name, kind)
  {
    hide IsParent, ParentName;
    var s := ROOTFS + name;
    assert s[0] == SLASH && s[7] == SLASH && s[|s| - 1] == name[|name| - 1];
    if kind == REGULAR { FileParent(s); } else { DirectoryParent(s, 7); }
  }

  /** Entry i hangs below an earlier entry, the first one with the name of its parent directory. */
  ghost predicate Placed(v: seq<Entry>, i: nat)
    requires i < |v|
  {
    var k := v[i].parent;
    && 0 <= k < i && IsParent(v[k].name, v[i].name)
    && forall j :: 0 <= j < k ==> v[j].name != v[k].name
  }

  ghost predicate Tree(v: seq<Entry>) {
    && |v| >= 2 && v[0].name == ROOT && v[0].parent == -1
    && forall i :: 0 < i < |v| ==> Placed(v, i)
  }

  /** Files and directories have the names that go with their types, and each comes after the directory
      that it is in; names are those so far. */
  ghost predicate ParentsFirst(names: seq<seq<Byte>>, ms: seq<Member>)
    requires AllNamed(ms)
    decreases |ms|
  {
    ms != [] ==>
      && (Listed(ms[0].kind) ==>
            && Shaped(ms[0].name, ms[0].kind)
            && ParentKnown(names, ROOTFS + ms[0].name))
      && ParentsFirst(if Listed(ms[0].kind) then names + [ROOTFS + ms[0].name] else names, ms[1..])
  }

  /** One of the names is that of the directory which s is in. */
  ghost predicate ParentKnown(names: seq<seq<Byte>>, s: seq<Byte>) {
    exists k :: 0 <= k < |names| && IsParent(names[k], s)
  }

  predicate AllNamed(ms: seq<Member>) {
    forall i :: 0 <= i < |ms| ==> ms[i].name != []
  }

  lemma {:induction false} LaidAreNamed(img: seq<Byte>, p: nat, ms: seq<Member>)
    requires Laid(img, p, ms)
    ensures AllNamed(ms)
    decreases |ms|
  {
    hide Extent;
    if ms != [] {
      LaidAreNamed(img, p + Extent(ms[0]), ms[1..]);
      assert forall i :: 0 < i < |ms| ==> ms[i] == ms[1..][i - 1];
    }
  }

  ghost predicate HasNames(v: seq<Entry>, names: seq<seq<Byte>>) {
    |v| == |names| && forall i :: 0 <= i < |v| ==> v[i].name == names[i]
  }

  lemma FirstIsTree()
    ensures Tree(FirstEntries())
  {
    var v := FirstEntries();
    assert v[1].name[0] == SLASH && ROOT == v[1].name[..1];
    assert IsParent(v[0].name, v[1].name);
    assert Placed(v, 1);
  }

  /** A member extends the tree exactly if its name goes with its type and its parent directory is
      there; if only the directory is missing the member gets the index -2. */
  lemma AddToTree(v: seq<Entry>, e: Entry, name: seq<Byte>, kind: Byte)
    requires Tree(v) && name != [] && Listed(kind)
    requires e.name == ROOTFS + name && e.parent == FindName(v, ParentName(e.name, Slices(kind)))
    ensures Tree(v + [e]) <==> Shaped(name, kind) && exists k :: 0 <= k < |v| && IsParent(v[k].name, e.name)
    ensures Shaped(name, kind) && !Tree(v + [e]) ==> e.parent == -2
  {
    hide IsParent, Shaped, ParentName;
    var q, w := ParentName(e.name, Slices(kind)), v + [e];
    ParentNameIsParent(name, kind);
    LastPlaced(v, e, q);
    if Shaped(name, kind) && exists k :: 0 <= k < |v| && IsParent(v[k].name, e.name) {
      var k :| 0 <= k < |v| && IsParent(v[k].name, e.name);
      ParentUnique(v[k].name, q, e.name);
    }
    forall i | 0 < i < |v|
      ensures Placed(w, i)
    {
      assert Placed(v, i);
    }
  }

  /** The new entry is in its place exactly if what was looked for is its parent's name, and was found. */
  lemma LastPlaced(v: seq<Entry>, e: Entry, q: seq<Byte>)
    requires e.parent == FindName(v, q)
    ensures Placed(v + [e], |v|) <==> e.parent >= 0 && IsParent(q, e.name)
    ensures e.parent >= 0 ==> v[e.parent].name == q
  {
    hide IsParent;
  }

  lemma TreePrefix(v: seq<Entry>, w: seq<Entry>)
    requires Tree(w) && v <= w && |v| >= 2
    ensures Tree(v)
  {
    forall i | 0 < i < |v|
      ensures Placed(v, i)
    {
      assert Placed(w, i);
    }
  }

  /** Path tree: an archive becomes a tree of paths exactly when directories have names that end with a
      slash, files do not, and each comes after the directory that it is in. */
  lemma {:induction false} DecodedIsTree(start: nat, p: nat, ms: seq<Member>, v: seq<Entry>, names: seq<seq<Byte>>)
    requires Tree(v) && HasNames(v, names) && AllNamed(ms)
    ensures Tree(Decoded(start, p, ms, v)) <==> ParentsFirst(names, ms)
    decreases |ms|
  {
    hide *;
    if ms == [] {
      NothingDecoded(start, p, ms, v, names);
    } else {
      var m, next := ms[0], p + Extent(ms[0]);
      DecodedStep(start, p, ms, v);
      ParentsFirstStep(names, ms);
      if Listed(m.kind) {
        var e := EntryFor(v, start, p, m.name, m.size, m.kind, BLOCK + next);
        OneMoreEntry(v, e, names, start, p, m, BLOCK + next);
        if Tree(v + [e]) {
          DecodedIsTree(start, next, ms[1..], v + [e], names + [e.name]);
        } else {
          NoTree(start, next, ms[1..], v + [e]);
        }
      } else {
        DecodedIsTree(start, next, ms[1..], v, names);
      }
    }
  }

  lemma NothingDecoded(start: nat, p: nat, ms: seq<Member>, v: seq<Entry>, names: seq<seq<Byte>>)
    requires ms == []
    ensures Decoded(start, p, ms, v) == v && AllNamed(ms) && ParentsFirst(names, ms)
  {
  }

  lemma ParentsFirstStep(names: seq<seq<Byte>>, ms: seq<Member>)
    requires AllNamed(ms) && ms != []
    ensures ms[0].name != [] && AllNamed(ms[1..])
    ensures ParentsFirst(names, ms)
        <==> if Listed(ms[0].kind)
             then && Shaped(ms[0].name, ms[0].kind) && ParentKnown(names, ROOTFS + ms[0].name)
                  && ParentsFirst(names + [ROOTFS + ms[0].name], ms[1..])
             else ParentsFirst(names, ms[1..])
  {
    hide Shaped, ParentKnown, IsParent;
  }

  /** One entry more extends the tree exactly if its name is right and its directory is known. */
  lemma OneMoreEntry(v: seq<Entry>, e: Entry, names: seq<seq<Byte>>, start: nat, p: nat, m: Member, offset: nat)
    requires Tree(v) && HasNames(v, names) && m.name != [] && Listed(m.kind)
    requires e == EntryFor(v, start, p, m.name, m.size, m.kind, offset)
    ensures e.name == ROOTFS + m.name && |v + [e]| >= 2 && HasNames(v + [e], names + [e.name])
    ensures Tree(v + [e]) <==> Shaped(m.name, m.kind) && ParentKnown(names, e.name)
  {
    hide Tree, IsParent, Shaped, FindName, ParentName;
    TreeSize(v);
    AddToTree(v, e, m.name, m.kind);
    NamesAgree(v, names, e.name);
  }

  /** The same for what tarfs_init makes of an archive. */
  lemma ArchiveIsTree(img: seq<Byte>, start: nat, ms: seq<Member>)
    requires Laid(img, 0, ms) && NoNul(ms)
    ensures AllNamed(ms)
    ensures Tree(Scan(img, start, 0, BLOCK, FirstEntries())) <==> ParentsFirst([ROOT, ROOTFS], ms)
  {
    hide Tree, ParentsFirst, Scan, Decoded, Laid, AllNamed;
    LaidAreNamed(img, 0, ms);
    FirstIsTree();
    ScanDecodes(img, start, 0, ms, FirstEntries());
    DecodedIsTree(start, 0, ms, FirstEntries(), [ROOT, ROOTFS]);
  }

  lemma TreeSize(v: seq<Entry>)
    requires Tree(v)
    ensures |v| >= 2
  {
  }

  lemma NamesAgree(v: seq<Entry>, names: seq<seq<Byte>>, s: seq<Byte>)
    requires HasNames(v, names)
    ensures (exists k :: 0 <= k < |v| && IsParent(v[k].name, s))
            <==> (exists k :: 0 <= k < |names| && IsParent(names[k], s))
  {
    hide IsParent;
    if k :| 0 <= k < |v| && IsParent(v[k].name, s) {
      assert IsParent(names[k], s);
    }
    if k :| 0 <= k < |names| && IsParent(names[k], s) {
      assert IsParent(v[k].name, s);
    }
  }

  lemma NoTree(start: nat, p: nat, ms: seq<Member>, v: seq<Entry>)
    requires !Tree(v) && |v| >= 2
    ensures !Tree(Decoded(start, p, ms, v))
  {
    hide Tree, Decoded;
    if Tree(Decoded(start, p, ms, v)) {
      TreePrefix(v, Decoded(start, p, ms, v));
    }
  }

  /** The way up from entry i. */
  function Ancestors(v: seq<Entry>, i: nat): seq<nat>
    requires i < |v|
    decreases i
  {
    if 0 <= v[i].parent < i then [i] + Ancestors(v, v[i].parent) else [i]
  }

  /** A way up: each step goes to the directory that the entry is in, and the last is the root. */
  ghost predicate LeadsUp(v: seq<Entry>, a: seq<nat>) {
    && a != [] && (forall j :: 0 <= j < |a| ==> a[j] < |v|) && a[|a| - 1] == 0
    && forall j :: 0 <= j < |a| - 1 ==> a[j + 1] < a[j] && IsParent(v[a[j + 1]].name, v[a[j]].name)
  }

  /** Every way up ends at the root. */
  lemma {:induction false} WayUp(v: seq<Entry>, i: nat)
    requires Tree(v) && i < |v|
    ensures LeadsUp(v, Ancestors(v, i)) && Ancestors(v, i)[0] == i
    decreases i
  {
    hide IsParent, LeadsUp;
    if i == 0 {
      assert LeadsUp(v, [0]) by { RootLeads(v); }
    } else {
      assert Placed(v, i);
      var k: nat := v[i].parent;
      WayUp(v, k);
      OneMore(v, i, Ancestors(v, k));
    }
  }

  lemma RootLeads(v: seq<Entry>)
    requires Tree(v)
    ensures LeadsUp(v, [0])
  {
  }

  lemma OneMore(v: seq<Entry>, i: nat, a: seq<nat>)
    requires LeadsUp(v, a) && i < |v| && a[0] < i && IsParent(v[a[0]].name, v[i].name)
    ensures LeadsUp(v, [i] + a)
  {
    hide IsParent;
    var b := [i] + a;
    forall j | 0 <= j < |b| - 1
      ensures b[j + 1] < b[j] && IsParent(v[b[j + 1]].name, v[b[j]].name)
    {
      if j > 0 { assert b[j] == a[j - 1] && b[j + 1] == a[j]; }
    }
  }

  // ---- tar_ls ----

  /** The entries directly below a directory. */
  function Children(v: seq<Entry>, dir: seq<Byte>): set<nat> {
    set i: nat | 0 < i < |v| && IsParent(dir, v[i].name)
  }

  lemma ChildIsBelow(v: seq<Entry>, dir: seq<Byte>, d: nat, i: nat)
    requires Tree(v) && FindName(v, dir) == d && 0 < i < |v|
    ensures v[i].parent == d <==> IsParent(dir, v[i].name)
  {
    assert Placed(v, i);
    var k := v[i].parent;
    if IsParent(dir, v[i].name) {
      ParentUnique(dir, v[k].name, v[i].name);
    }
  }

  /** The entries among the first n whose parent index is d. */
  function Below(v: seq<Entry>, d: int, n: nat): (s: set<nat>)
    requires n <= |v|
    ensures forall i: nat :: i in s <==> i < n && v[i].parent == d
  {
    if n == 0 then {} else if v[n - 1].parent == d then Below(v, d, n - 1) + {n - 1} else Below(v, d, n - 1)
  }

  lemma {:induction false} CountIs(v: seq<Entry>, d: int, n: nat)
    requires n <= |v|
    ensures CountParent(v[..n], d) == |Below(v, d, n)|
  {
    if n > 0 {
      var k: nat := n - 1;
      CountIs(v, d, k);
      assert v[..n][..k] == v[..k];
      assert k !in Below(v, d, k);
    }
  }

  /** tar_ls of a directory that is there counts exactly the entries directly below it. Of a name
      that is not there it counts one: the index -1 that stands for it is also the root's parent. */
  lemma LsCounts(v: seq<Entry>, dir: seq<Byte>)
    requires Tree(v)
    ensures FindName(v, dir) >= 0 ==> CountParent(v, FindName(v, dir)) == |Children(v, dir)|
    ensures FindName(v, dir) == -2 ==> CountParent(v, -1) == 1
  {
    var d := FindName(v, dir);
    assert v[..|v|] == v;
    forall i: nat | 0 < i < |v|
      ensures v[i].parent >= 0
      ensures d >= 0 ==> (v[i].parent == d <==> IsParent(dir, v[i].name))
    {
      assert Placed(v, i);
      if d >= 0 { ChildIsBelow(v, dir, d, i); }
    }
    if d >= 0 {
      CountIs(v, d, |v|);
      assert Below(v, d, |v|) == Children(v, dir);
    } else {
      CountIs(v, -1, |v|);
      assert Below(v, -1, |v|) == {0};
    }
  }
}
