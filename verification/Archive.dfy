/** The ustar interchange format (IEEE Std 1003.1, pax utility) as far as sys/tarfs.c reads it, and
    the blocks that its walk visits. */
module Archive {
  import opened CString

  const BLOCK: nat := 512
  const NAME_FIELD: nat := 100
  const SIZE_FIELD: nat := 124
  const SIZE_DIGITS: nat := 11
  const TYPE_FIELD: nat := 156

  const REGULAR: Byte := 48    // '0'
  const DIRECTORY: Byte := 53  // '5'

  /** An archive member as its header describes it. */
  datatype Member = Member(name: seq<Byte>, size: nat, kind: Byte)

  /** Blocks of data behind a header. */
  function DataBlocks(size: nat): nat { (size + 511) / 512 }

  // ---- Reading a header ----

  function NameAt(img: seq<Byte>, p: nat): seq<Byte>
    requires p <= |img|
  {
    Text(img[p..])
  }

  function SizeField(img: seq<Byte>, p: nat): (s: seq<Byte>)
    requires p + BLOCK <= |img|
    ensures |s| == SIZE_DIGITS
  {
    img[p + SIZE_FIELD..p + SIZE_FIELD + SIZE_DIGITS]
  }

  function SizeAt(img: seq<Byte>, p: nat): int
    requires p + BLOCK <= |img|
  {
    Octal(SizeField(img, p))
  }

  function KindAt(img: seq<Byte>, p: nat): Byte
    requires p + BLOCK <= |img|
  {
    img[p + TYPE_FIELD]
  }

  /** A header whose name ends within its field and whose size is a number below 2 GiB. */
  ghost predicate GoodHeader(img: seq<Byte>, p: nat) {
    && p + BLOCK <= |img|
    && |NameAt(img, p)| < NAME_FIELD
    && OctalFits(SizeField(img, p))
    && 0 <= SizeAt(img, p)
  }

  // ---- The walk of tarfs_init ----

  /** Where the walk goes from a header: past its data, and past one block more if the typeflag is NUL. */
  function NextAt(img: seq<Byte>, p: nat): (q: nat)
    requires p + BLOCK <= |img|
    ensures q >= p + BLOCK
  {
    var size := if SizeAt(img, p) < 0 then 0 else SizeAt(img, p);
    p + BLOCK * (DataBlocks(size) + 1 + if KindAt(img, p) == 0 then 1 else 0)
  }

  /** The walk ends at the end of the image or at a header without a name. */
  predicate Ends(img: seq<Byte>, p: nat) {
    p + BLOCK > |img| || img[p] == 0
  }

  /** The headers that the walk visits from p on. */
  function Walk(img: seq<Byte>, p: nat): seq<nat>
    decreases if p < |img| then |img| - p else 0
  {
    if Ends(img, p) then [] else [p] + Walk(img, NextAt(img, p))
  }

  /** Whether the walk finds a proper header wherever it looks. */
  ghost predicate Readable(img: seq<Byte>, p: nat)
    decreases if p < |img| then |img| - p else 0
  {
    p >= |img| || (p + BLOCK <= |img| && (img[p] == 0 || (GoodHeader(img, p) && Readable(img, NextAt(img, p)))))
  }

  // ---- Archives ----

  ghost predicate GoodMember(m: Member) {
    m.name != [] && |m.name| < NAME_FIELD && 0 !in m.name && m.size < 0x8000_0000
  }

  predicate DigitsOnly(s: seq<Byte>) {
    forall i :: 0 <= i < |s| ==> ZERO <= s[i] <= ZERO + 7
  }

  /** Whether the header at p describes m. */
  ghost predicate HeaderIs(img: seq<Byte>, p: nat, m: Member) {
    && GoodMember(m)
    && p + BLOCK <= |img|
    && m.name + [0] <= img[p..]
    && DigitsOnly(SizeField(img, p))
    && SizeAt(img, p) == m.size && KindAt(img, p) == m.kind
  }

  /** Bytes that a member takes. */
  function Extent(m: Member): nat { BLOCK * (1 + DataBlocks(m.size)) }

  /** Whether the members ms are laid out from p on, followed by the end or by a zero. */
  ghost predicate Laid(img: seq<Byte>, p: nat, ms: seq<Member>)
    decreases |ms|
  {
    if ms == [] then p >= |img| || (p + BLOCK <= |img| && img[p] == 0)
    else HeaderIs(img, p, ms[0]) && Laid(img, p + Extent(ms[0]), ms[1..])
  }

  /** Where the headers of the members are. */
  function Positions(p: nat, ms: seq<Member>): (ps: seq<nat>)
    ensures |ps| == |ms|
    decreases |ms|
  {
    if ms == [] then [] else [p] + Positions(p + Extent(ms[0]), ms[1..])
  }

  lemma HeaderFacts(img: seq<Byte>, p: nat, m: Member)
    requires HeaderIs(img, p, m)
    ensures p + BLOCK <= |img| && GoodHeader(img, p) && !Ends(img, p) && NameAt(img, p) == m.name
    ensures NextAt(img, p) == p + Extent(m) + if m.kind == 0 then BLOCK else 0
  {
    TextIs(img[p..], m.name);
    assert img[p..][0] == (m.name + [0])[0] == m.name[0];
    assert m.name[0] in m.name;
    DigitsFit(SizeField(img, p));
  }

  predicate NoNul(ms: seq<Member>) {
    forall i :: 0 <= i < |ms| ==> ms[i].kind != 0
  }

  /** One step of the walk. */
  lemma WalkFromHeader(img: seq<Byte>, p: nat, m: Member)
    requires HeaderIs(img, p, m)
    ensures var next := p + Extent(m) + if m.kind == 0 then BLOCK else 0;
            Walk(img, p) == [p] + Walk(img, next) && (Readable(img, next) ==> Readable(img, p))
  {
    hide GoodHeader, HeaderIs, Extent, NextAt, Ends, KindAt, SizeAt;
    HeaderFacts(img, p, m);
  }

  /** The walk visits exactly the headers, in order, and finds them proper. */
  lemma {:induction false} WalkVisitsHeaders(img: seq<Byte>, p: nat, ms: seq<Member>)
    requires Laid(img, p, ms) && NoNul(ms)
    ensures Walk(img, p) == Positions(p, ms) && Readable(img, p)
    decreases |ms|
  {
    hide HeaderIs, Extent, NextAt, GoodHeader;
    if ms != [] {
      hide Walk, Readable;
      WalkFromHeader(img, p, ms[0]);
      WalkVisitsHeaders(img, p + Extent(ms[0]), ms[1..]);
    }
  }

  /** The walk never turns back. */
  lemma {:induction false} WalkAscends(img: seq<Byte>, p: nat, q: nat)
    requires q < p
    ensures q !in Walk(img, p)
    decreases if p < |img| then |img| - p else 0
  {
    if !Ends(img, p) {
      WalkAscends(img, NextAt(img, p), q);
    }
  }

  /** Whether the walk visits all headers. */
  ghost predicate VisitsAll(img: seq<Byte>, p: nat, ms: seq<Member>) {
    forall q :: q in Positions(p, ms) ==> q in Walk(img, p)
  }

  /** All members but the last. */
  function Front(ms: seq<Member>): seq<Member> {
    if ms == [] then [] else ms[..|ms| - 1]
  }

  lemma MissesNext(img: seq<Byte>, p: nat, m: Member, rest: seq<Member>)
    requires HeaderIs(img, p, m) && m.kind == 0 && rest != []
    ensures !VisitsAll(img, p, [m] + rest)
  {
    hide HeaderIs, Walk, Extent;
    var next := p + Extent(m);
    WalkFromHeader(img, p, m);
    assert ([m] + rest)[1..] == rest;
    assert Positions(p, [m] + rest) == [p] + Positions(next, rest);
    assert Positions(next, rest)[0] == next;
    WalkAscends(img, next + BLOCK, next);
    ExtentPositive(m);
    assert next in Positions(p, [m] + rest) && next !in Walk(img, p);
  }

  lemma ExtentPositive(m: Member)
    ensures Extent(m) >= BLOCK
  {
  }

  lemma GoesOn(img: seq<Byte>, p: nat, m: Member, rest: seq<Member>)
    requires HeaderIs(img, p, m) && m.kind != 0
    ensures VisitsAll(img, p, [m] + rest) <==> VisitsAll(img, p + Extent(m), rest)
  {
    hide HeaderIs, Walk, Extent;
    var next := p + Extent(m);
    WalkFromHeader(img, p, m);
    ExtentPositive(m);
    assert ([m] + rest)[1..] == rest;
    assert Positions(p, [m] + rest) == [p] + Positions(next, rest);
    assert Walk(img, p) == [p] + Walk(img, next);
    PositionsAscend(next, rest, p);
    if VisitsAll(img, p, [m] + rest) {
      forall q | q in Positions(next, rest)
        ensures q in Walk(img, next)
      {
        assert q in Positions(p, [m] + rest);
      }
    }
  }

  /** Exactly when the walk goes wrong: a member with a NUL typeflag, which the format allows for
      regular files, makes it miss the header that follows. */
  lemma {:induction false} WalkMissesAfterNul(img: seq<Byte>, p: nat, ms: seq<Member>)
    requires Laid(img, p, ms)
    ensures VisitsAll(img, p, ms) <==> NoNul(Front(ms))
    decreases |ms|
  {
    if |ms| <= 1 {
      VisitsFirst(img, p, ms);
    } else {
      hide VisitsAll, NoNul, HeaderIs;
      var m, rest := ms[0], ms[1..];
      assert ms == [m] + rest;
      assert Front(ms) == [m] + Front(rest);
      if m.kind == 0 {
        MissesNext(img, p, m, rest);
        NulFirst(m, Front(rest));
      } else {
        WalkMissesAfterNul(img, p + Extent(m), rest);
        GoesOn(img, p, m, rest);
        NoNulSplit(m, Front(rest));
      }
    }
  }

  /** Where the members end. */
  function EndOf(p: nat, ms: seq<Member>): nat
    decreases |ms|
  {
    if ms == [] then p else EndOf(p + Extent(ms[0]), ms[1..])
  }

  /** After a last member with a NUL typeflag the walk looks one block behind the archive. */
  predicate StopsBehind(img: seq<Byte>, p: nat, ms: seq<Member>) {
    ms != [] && ms[|ms| - 1].kind == 0 ==> Ends(img, EndOf(p, ms) + BLOCK)
  }

  /** Exactly when the walk visits the headers and nothing else: only the last member may have a NUL
      typeflag, and if it has one there is nothing a block behind the archive. */
  lemma {:induction false} WalkIsExact(img: seq<Byte>, p: nat, ms: seq<Member>)
    requires Laid(img, p, ms)
    ensures Walk(img, p) == Positions(p, ms) <==> NoNul(Front(ms)) && StopsBehind(img, p, ms)
    decreases |ms|
  {
    if |ms| <= 1 {
      WalkOfOne(img, p, ms);
    } else {
      hide *;
      LaidParts(img, p, ms);
      if ms[0].kind == 0 {
        NulIsNotExact(img, p, ms);
      } else {
        WalkIsExact(img, p + Extent(ms[0]), ms[1..]);
        WalkOfFirst(img, p, ms);
      }
    }
  }

  lemma NulIsNotExact(img: seq<Byte>, p: nat, ms: seq<Member>)
    requires Laid(img, p, ms) && |ms| > 1 && ms[0].kind == 0
    ensures Walk(img, p) != Positions(p, ms) && !NoNul(Front(ms))
  {
    hide *;
    LaidParts(img, p, ms);
    MissesNext(img, p, ms[0], ms[1..]);
    NulFirst(ms[0], Front(ms[1..]));
    NotAllIsNotExact(img, p, ms);
  }

  lemma WalkOfFirst(img: seq<Byte>, p: nat, ms: seq<Member>)
    requires Laid(img, p, ms) && |ms| > 1 && ms[0].kind != 0
    ensures Walk(img, p) == Positions(p, ms)
        <==> Walk(img, p + Extent(ms[0])) == Positions(p + Extent(ms[0]), ms[1..])
    ensures NoNul(Front(ms)) <==> NoNul(Front(ms[1..]))
  {
    hide *;
    LaidParts(img, p, ms);
    WalkFromHeader(img, p, ms[0]);
    NoNulSplit(ms[0], Front(ms[1..]));
    SameTail(p, Walk(img, p + Extent(ms[0])), Positions(p + Extent(ms[0]), ms[1..]));
  }

  lemma LaidParts(img: seq<Byte>, p: nat, ms: seq<Member>)
    requires Laid(img, p, ms) && |ms| > 1
    ensures var m, rest := ms[0], ms[1..];
            && HeaderIs(img, p, m) && Laid(img, p + Extent(m), rest) && ms == [m] + rest
            && Front(ms) == [m] + Front(rest)
            && Positions(p, ms) == [p] + Positions(p + Extent(m), rest)
            && (StopsBehind(img, p, ms) <==> StopsBehind(img, p + Extent(m), rest))
  {
    hide HeaderIs, Ends, Extent;
  }

  lemma SameTail(p: nat, a: seq<nat>, b: seq<nat>)
    ensures [p] + a == [p] + b <==> a == b
  {
    if [p] + a == [p] + b {
      assert a == ([p] + a)[1..] && b == ([p] + b)[1..];
    }
  }

  lemma NotAllIsNotExact(img: seq<Byte>, p: nat, ms: seq<Member>)
    requires !VisitsAll(img, p, ms)
    ensures Walk(img, p) != Positions(p, ms)
  {
    hide Walk;
  }

  lemma WalkOfOne(img: seq<Byte>, p: nat, ms: seq<Member>)
    requires Laid(img, p, ms) && |ms| <= 1
    ensures Walk(img, p) == Positions(p, ms) <==> StopsBehind(img, p, ms)
    ensures NoNul(Front(ms))
  {
    if |ms| == 1 {
      hide HeaderIs, NextAt, GoodHeader, Extent;
      var m := ms[0];
      WalkFromHeader(img, p, m);
      assert Positions(p, ms) == [p];
      assert EndOf(p, ms) == p + Extent(m);
      SameTail(p, Walk(img, p + Extent(m) + if m.kind == 0 then BLOCK else 0), []);
    }
  }

  lemma VisitsFirst(img: seq<Byte>, p: nat, ms: seq<Member>)
    requires Laid(img, p, ms) && |ms| <= 1
    ensures VisitsAll(img, p, ms) && NoNul(Front(ms))
  {
    if |ms| == 1 {
      HeaderFacts(img, p, ms[0]);
      assert Positions(p, ms) == [p];
      assert Walk(img, p)[0] == p;
    }
  }

  lemma NulFirst(m: Member, ms: seq<Member>)
    requires m.kind == 0
    ensures !NoNul([m] + ms)
  {
    assert ([m] + ms)[0].kind == 0;
  }

  lemma {:induction false} PositionsAscend(p: nat, ms: seq<Member>, q: nat)
    requires q < p
    ensures q !in Positions(p, ms)
    decreases |ms|
  {
    if ms != [] {
      PositionsAscend(p + Extent(ms[0]), ms[1..], q);
    }
  }

  lemma NoNulSplit(m: Member, ms: seq<Member>)
    requires m.kind != 0
    ensures NoNul([m] + ms) <==> NoNul(ms)
  {
    if NoNul([m] + ms) {
      forall i | 0 <= i < |ms|
        ensures ms[i].kind != 0
      {
        assert ([m] + ms)[i + 1] == ms[i];
      }
    }
  }

  // ---- Writing an archive ----

  function Zeros(n: nat): (s: seq<Byte>)
    ensures |s| == n && forall i :: 0 <= i < n ==> s[i] == 0
  {
    seq(n, i => 0)
  }

  /** A header block with its name, size and typeflag. */
  function Header(m: Member): (h: seq<Byte>)
    requires |m.name| < NAME_FIELD
    ensures |h| == BLOCK
  {
    m.name + Zeros(NAME_FIELD - |m.name|) + Zeros(24) + OctalDigits(m.size, SIZE_DIGITS) + Zeros(21) + [m.kind]
      + Zeros(355)
  }

  /** Members with the data that their headers announce. */
  ghost predicate Fit(ms: seq<Member>, data: seq<seq<Byte>>) {
    |data| == |ms| && forall i :: 0 <= i < |ms| ==> GoodMember(ms[i]) && |data[i]| == ms[i].size
  }

  function Encoded(m: Member, data: seq<Byte>): (s: seq<Byte>)
    requires |m.name| < NAME_FIELD && |data| == m.size
    ensures |s| == Extent(m) && s[..BLOCK] == Header(m)
  {
    Header(m) + data + Zeros(BLOCK * DataBlocks(m.size) - m.size)
  }

  /** Members with their data, each padded to whole blocks. */
  function Encode(ms: seq<Member>, data: seq<seq<Byte>>): seq<Byte>
    requires Fit(ms, data)
    decreases |ms|
  {
    if ms == [] then [] else Encoded(ms[0], data[0]) + Encode(ms[1..], data[1..])
  }

  lemma SubSlice(s: seq<Byte>, p: nat, n: nat, a: nat, b: nat)
    requires a <= b <= n && p + n <= |s|
    ensures s[p..p + n][a..b] == s[p + a..p + b] && s[p..][a..b] == s[p + a..p + b]
  {
    var t, u, w := s[p..p + n], s[p..], s[p + a..p + b];
    forall i: nat | i < b - a
      ensures t[a..b][i] == w[i] && u[a..b][i] == w[i]
    {
      assert t[a..b][i] == t[a + i] == s[p + (a + i)];
      assert u[a..b][i] == u[a + i] == s[p + (a + i)];
      assert w[i] == s[(p + a) + i];
    }
    assert t[a..b] == w;
    assert u[a..b] == w;
  }

  /** The fields of a header block are where the format has them. */
  lemma HeaderFields(m: Member)
    requires |m.name| < NAME_FIELD
    ensures var h := Header(m);
            && h[0..|m.name| + 1] == m.name + [0] && h[TYPE_FIELD..TYPE_FIELD + 1] == [m.kind]
            && h[SIZE_FIELD..SIZE_FIELD + SIZE_DIGITS] == OctalDigits(m.size, SIZE_DIGITS)
  {
    hide OctalDigits, Zeros;
    var a, b := m.name + Zeros(NAME_FIELD - |m.name|), OctalDigits(m.size, SIZE_DIGITS) + Zeros(21) + [m.kind]
      + Zeros(355);
    assert Header(m) == a + Zeros(24) + b;
  }

  lemma HeaderDescribes(img: seq<Byte>, p: nat, m: Member)
    requires GoodMember(m) && p + BLOCK <= |img| && img[p..p + BLOCK] == Header(m)
    ensures HeaderIs(img, p, m)
  {
    hide OctalDigits, Header, Octal;
    HeaderFields(m);
    SubSlice(img, p, BLOCK, 0, |m.name| + 1);
    SubSlice(img, p, BLOCK, SIZE_FIELD, SIZE_FIELD + SIZE_DIGITS);
    SubSlice(img, p, BLOCK, TYPE_FIELD, TYPE_FIELD + 1);
    Eight11();
    OctalRoundTrip(m.size, SIZE_DIGITS);
    assert img[p + TYPE_FIELD] == img[p + TYPE_FIELD..p + TYPE_FIELD + 1][0];
  }

  lemma Eight11()
    ensures Pow8(11) == 0x2_0000_0000
  {
    assert Pow8(3) == 512;
    assert Pow8(6) == 8 * Pow8(5) && Pow8(5) == 8 * Pow8(4) && Pow8(4) == 8 * Pow8(3);
    assert Pow8(9) == 8 * Pow8(8) && Pow8(8) == 8 * Pow8(7) && Pow8(7) == 8 * Pow8(6);
    assert Pow8(11) == 8 * Pow8(10) && Pow8(10) == 8 * Pow8(9);
  }

  /** What is written is laid out: after anything, followed by nothing or by a zero block. */
  lemma {:induction false} EncodedIsLaid(before: seq<Byte>, ms: seq<Member>, data: seq<seq<Byte>>, trailer: seq<Byte>)
    requires Fit(ms, data)
    requires trailer == [] || (|trailer| >= BLOCK && trailer[0] == 0)
    ensures Laid(before + Encode(ms, data) + trailer, |before|, ms)
    decreases |ms|
  {
    hide HeaderIs, Header, Encoded;
    var img := before + Encode(ms, data) + trailer;
    if ms == [] {
      assert img == before + trailer;
    } else {
      var m, first := ms[0], Encoded(ms[0], data[0]);
      assert img == (before + first) + Encode(ms[1..], data[1..]) + trailer;
      assert img[|before|..|before| + BLOCK] == first[..BLOCK];
      HeaderDescribes(img, |before|, m);
      EncodedIsLaid(before + first, ms[1..], data[1..], trailer);
    }
  }
}
