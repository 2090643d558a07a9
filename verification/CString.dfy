/** sys/string.c and sys/math.c: strings that end with a NUL byte, and octal numbers. */
module CString {

  type Byte = b: nat | b < 256 witness 0

  const SLASH: Byte := 47
  const ZERO: Byte := 48

  /** The string at the start of a buffer. */
  function Text(s: seq<Byte>): (t: seq<Byte>)
    ensures |t| <= |s| && t == s[..|t|]
    ensures 0 !in t
    ensures |t| < |s| ==> s[|t|] == 0
  {
    if s == [] || s[0] == 0 then [] else [s[0]] + Text(s[1..])
  }

  lemma {:induction false} TextIs(s: seq<Byte>, t: seq<Byte>)
    requires t + [0] <= s && 0 !in t
    ensures Text(s) == t
    decreases |t|
  {
    if t != [] {
      assert s[0] == t[0] && t[0] in t;
      assert t == [t[0]] + t[1..];
      assert t[1..] + [0] == (t + [0])[1..] <= s[1..];
      TextIs(s[1..], t[1..]);
    } else {
      assert s[0] == 0;
    }
  }

  /** strlen. */
  method StrLen(s: seq<Byte>) returns (n: nat)
    requires 0 in s
    ensures n == |Text(s)| && n < |s|
  {
    var len: nat := 0;
    while s[len] != 0
      invariant len < |s| && 0 !in s[..len]
      decreases |s| - len
    {
      assert s == s[..len] + [s[len]] + s[len + 1..];
      len := len + 1;
    }
    TextIs(s, s[..len]);
    n := len;
  }

  /** char is signed. */
  function Signed(b: Byte): int {
    if b < 128 then b else b - 256
  }

  /** The order of strcmp: shorter strings first, then by the first character that differs. */
  function Compare(a: seq<Byte>, b: seq<Byte>): int {
    if |a| > |b| then 1 else if |a| < |b| then -1 else CompareSame(a, b)
  }

  function CompareSame(a: seq<Byte>, b: seq<Byte>): int
    requires |a| == |b|
  {
    if a == [] then 0
    else if a[0] == b[0] then CompareSame(a[1..], b[1..])
    else if Signed(a[0]) > Signed(b[0]) then 1
    else -1
  }

  /** strcmp tells equal strings from different ones. */
  lemma {:induction false} CompareIsEquality(a: seq<Byte>, b: seq<Byte>)
    ensures Compare(a, b) == 0 <==> a == b
    decreases |a|
  {
    if |a| == |b| && a != [] {
      CompareIsEquality(a[1..], b[1..]);
      assert a == [a[0]] + a[1..] && b == [b[0]] + b[1..];
    }
  }

  lemma {:induction false} CompareFrom(a: seq<Byte>, b: seq<Byte>, i: nat)
    requires |a| == |b| && i <= |a| && a[..i] == b[..i]
    ensures CompareSame(a, b) == CompareSame(a[i..], b[i..])
    decreases i
  {
    if i > 0 {
      assert a[0] == a[..i][0] == b[..i][0] == b[0];
      assert a[1..][..i - 1] == a[..i][1..] && b[1..][..i - 1] == b[..i][1..];
      CompareFrom(a[1..], b[1..], i - 1);
      assert a[1..][i - 1..] == a[i..] && b[1..][i - 1..] == b[i..];
    }
  }

  /** strcmp. */
  method StrCmp(str1: seq<Byte>, str2: seq<Byte>) returns (r: int)
    requires 0 in str1 && 0 in str2
    ensures r == Compare(Text(str1), Text(str2))
    ensures r == 0 <==> Text(str1) == Text(str2)
  {
    CompareIsEquality(Text(str1), Text(str2));
    var len1 := StrLen(str1);
    var len2 := StrLen(str2);
    if len1 > len2 {
      return 1;
    } else if len1 < len2 {
      return -1;
    }
    ghost var t1, t2 := Text(str1), Text(str2);
    var i: nat := 0;
    while str1[i] != 0 && str1[i] == str2[i]
      invariant i <= len1 && t1[..i] == t2[..i]
      decreases len1 - i
    {
      assert t1[i] == str1[i] && t2[i] == str2[i];
      assert t1[..i + 1] == t1[..i] + [t1[i]] && t2[..i + 1] == t2[..i] + [t2[i]];
      i := i + 1;
    }
    CompareFrom(t1, t2, i);
    if str1[i] == 0 {
      return 0;
    }
    if Signed(str1[i]) > Signed(str2[i]) {
      return 1;
    } else {
      return -1;
    }
  }

  /** strcpy(&dst[at], src): the string and its end, and nothing else. */
  method StrCpy(dst: array<Byte>, at: nat, src: seq<Byte>)
    requires 0 in src && at + |Text(src)| < dst.Length
    modifies dst
    ensures dst[..] == old(dst[..at]) + Text(src) + [0] + old(dst[at + |Text(src)| + 1..])
  {
    ghost var before := dst[..];
    var len := StrLen(src);
    var i: nat := 0;
    while i < len
      invariant i <= len
      invariant dst[..] == before[..at] + src[..i] + before[at + i..]
    {
      CopiedOneMore(before, src, at, i);
      dst[at + i] := src[i];
      i := i + 1;
    }
    dst[at + i] := 0;
  }

  lemma CopiedOneMore(before: seq<Byte>, src: seq<Byte>, at: nat, i: nat)
    requires i < |src| && at + i < |before|
    ensures (before[..at] + src[..i] + before[at + i..])[at + i := src[i]]
            == before[..at] + src[..i + 1] + before[at + i + 1..]
  {
    assert src[..i + 1] == src[..i] + [src[i]];
  }

  /** strsubcpy: characters from .. to - 1, at the same places, without an end. */
  method StrSubCpy(dst: array<Byte>, src: seq<Byte>, from: nat, to: nat)
    requires from <= to <= |src| && to <= dst.Length
    modifies dst
    ensures dst[..] == old(dst[..from]) + src[from..to] + old(dst[to..])
  {
    ghost var before := dst[..];
    var i := from;
    while i < to
      invariant from <= i <= to
      invariant dst[..] == before[..from] + src[from..i] + before[i..]
    {
      dst[i] := src[i];
      assert src[from..i + 1] == src[from..i] + [src[i]];
      i := i + 1;
    }
  }

  /** strrevcat: appends the first string to the second. */
  method StrRevCat(str1: seq<Byte>, str2: array<Byte>)
    requires 0 in str1 && 0 in str2[..] && |Text(str2[..])| + |Text(str1)| < str2.Length
    modifies str2
    ensures 0 in str2[..] && Text(str2[..]) == old(Text(str2[..])) + Text(str1)
  {
    ghost var head := Text(str2[..]);
    var len2 := StrLen(str2[..]);
    StrCpy(str2, len2, str1);
    assert str2[..][len2 + |Text(str1)|] == 0;
    TextIs(str2[..], head + Text(str1));
  }

  // ---- Octal numbers ----

  /** What oct2bin makes of a field: digits are not checked. */
  function Octal(s: seq<Byte>): int {
    if s == [] then 0 else 8 * Octal(s[..|s| - 1]) + s[|s| - 1] - ZERO
  }

  /** Whether the computation stays within a C int. */
  ghost predicate OctalFits(s: seq<Byte>) {
    forall k :: 0 <= k <= |s| ==> -0x8000_0000 <= Octal(s[..k]) < 0x8000_0000
  }

  /** oct2bin. */
  method Oct2Bin(str: seq<Byte>, size: nat) returns (n: int)
    requires size <= |str| && OctalFits(str[..size])
    ensures n == Octal(str[..size])
  {
    n := 0;
    var c := 0;
    var left := size;
    while left > 0
      invariant c + left == size && n == Octal(str[..c])
    {
      left := left - 1;
      n := n * 8;
      n := n + (str[c] - ZERO);
      assert str[..c + 1][..c] == str[..c];
      c := c + 1;
    }
  }

  /** A number as k octal digits. */
  function OctalDigits(n: nat, k: nat): (s: seq<Byte>)
    ensures |s| == k
    ensures forall i :: 0 <= i < k ==> ZERO <= s[i] <= ZERO + 7
  {
    if k == 0 then [] else OctalDigits(n / 8, k - 1) + [ZERO + n % 8]
  }

  function Pow8(k: nat): nat {
    if k == 0 then 1 else 8 * Pow8(k - 1)
  }

  /** Reading back what was written. */
  lemma {:induction false} OctalRoundTrip(n: nat, k: nat)
    requires n < Pow8(k)
    ensures Octal(OctalDigits(n, k)) == n
  {
    if k > 0 {
      var s := OctalDigits(n, k);
      assert s[..k - 1] == OctalDigits(n / 8, k - 1);
      OctalRoundTrip(n / 8, k - 1);
    }
  }

  /** With octal digits only, no step of the conversion exceeds its result. */
  lemma {:induction false} DigitsFit(s: seq<Byte>)
    requires forall i :: 0 <= i < |s| ==> ZERO <= s[i]
    requires Octal(s) < 0x8000_0000
    ensures OctalFits(s) && Octal(s) >= 0
    decreases |s|
  {
    if s == [] {
      assert s[..0] == [];
    } else {
      var t := s[..|s| - 1];
      OctalNonNegative(t);
      DigitsFit(t);
      forall k | 0 <= k <= |s|
        ensures -0x8000_0000 <= Octal(s[..k]) < 0x8000_0000
      {
        if k == |s| { assert s[..k] == s; OctalNonNegative(s); } else { assert s[..k] == t[..k]; }
      }
    }
  }

  lemma {:induction false} OctalNonNegative(s: seq<Byte>)
    requires forall i :: 0 <= i < |s| ==> ZERO <= s[i]
    ensures Octal(s) >= 0
    decreases |s|
  {
    if s != [] {
      OctalNonNegative(s[..|s| - 1]);
    }
  }
}
