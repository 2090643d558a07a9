/** 64-bit words and the bit operators of C on them, defined by binary digits, with the
    closed forms that page-table address arithmetic needs. */
module Words {

  const WORD_LIMIT: nat := 0x1_0000_0000_0000_0000

  /** uint64_t. */
  type Word = x: nat | x < 0x1_0000_0000_0000_0000 witness 0

  function Pow2(k: nat): (p: nat)
    ensures p >= 1
  {
    if k == 0 then 1 else 2 * Pow2(k - 1)
  }

  /** The C operator & on unsigned values. */
  function And(a: nat, b: nat): nat {
    if a == 0 || b == 0 then 0 else (if a % 2 == 1 && b % 2 == 1 then 1 else 0) + 2 * And(a / 2, b / 2)
  }

  /** The C operator | on unsigned values. */
  function Or(a: nat, b: nat): nat {
    if a == 0 then b
    else if b == 0 then a
    else (if a % 2 == 1 || b % 2 == 1 then 1 else 0) + 2 * Or(a / 2, b / 2)
  }

  /** The C operator >> on unsigned values. */
  function Shr(a: nat, k: nat): nat {
    if k == 0 then a else Shr(a / 2, k - 1)
  }

  lemma {:induction false} ShrDivides(a: nat, k: nat)
    ensures Shr(a, k) == a / Pow2(k)
  {
    if k > 0 {
      ShrDivides(a / 2, k - 1);
      DivModSplit(a, 2, Pow2(k - 1));
    }
  }

  lemma {:induction false} ShrExact(a: nat, k: nat)
    ensures Shr(a * Pow2(k), k) == a
  {
    if k > 0 {
      DoubleProduct(a, Pow2(k - 1));
      ShrExact(a, k - 1);
    }
  }

  /** Taking the low digits apart: dividing by 2 commutes with reducing modulo an even number. */
  lemma ModDouble(v: nat, m: nat)
    requires m > 0
    ensures v % (2 * m) == v % 2 + 2 * (v / 2 % m)
  {
    DivModSplit(v, 2, m);
  }

  /** Mixed-radix digits: dividing in two steps, and reducing in two steps. */
  lemma DivModSplit(v: nat, a: nat, b: nat)
    requires a > 0 && b > 0
    ensures v / a / b == v / (a * b)
    ensures v % (a * b) == v % a + a * (v / a % b)
  {
    var n, d := v / a, v % a;
    var q, r := n / b, n % b;
    Divided(v, a);
    Divided(n, b);
    Regroup(a, b, q, r);
    DivModUnique(v, a * b, q, a * r + d);
  }

  lemma Divided(v: nat, a: nat)
    requires a > 0
    ensures v == a * (v / a) + v % a && v == v / a * a + v % a && v % a < a
  {
  }

  lemma Regroup(a: nat, b: nat, q: nat, r: nat)
    requires r < b
    ensures a * (q * b + r) == q * (a * b) + a * r
    ensures a * r + a <= a * b
  {
    assert a * (q * b + r) == a * (q * b) + a * r;
    assert a * (q * b) == q * (a * b);
    AtLeastOne(b - r, a);
    assert a * b == a * r + (b - r) * a;
  }

  lemma DivModUnique(v: nat, d: nat, q: nat, r: nat)
    requires d > 0 && v == q * d + r && r < d
    ensures v / d == q && v % d == r
  {
    var a, b := v / d, v % d;
    assert v == a * d + b;
    assert (q - a) * d == b - r;
    AtLeastOne(q - a, d);
    AtLeastOne(a - q, d);
    assert (a - q) * d == r - b;
  }

  lemma AtLeastOne(x: int, d: nat)
    ensures x >= 1 ==> x * d >= d
  {
    if x >= 1 {
      assert x * d == (x - 1) * d + d;
      assert (x - 1) * d >= 0;
    }
  }

  /** Masking with 2^j - 1 keeps the low j digits. */
  lemma {:induction false} AndLow(v: nat, j: nat)
    ensures And(v, Pow2(j) - 1) == v % Pow2(j)
  {
    if j > 0 {
      var m := Pow2(j - 1);
      AndLow(v / 2, j - 1);
      ModDouble(v, m);
      assert (2 * m - 1) / 2 == m - 1 && (2 * m - 1) % 2 == 1;
    }
  }

  /** Masking with ones above k zeroes masks the digits from k on. */
  lemma {:induction false} AndShifted(v: nat, ones: nat, k: nat)
    ensures And(v, ones * Pow2(k)) == And(Shr(v, k), ones) * Pow2(k)
  {
    if k > 0 {
      var m := Pow2(k - 1);
      DoubleProduct(ones, m);
      AndDouble(v, ones * m);
      AndShifted(v / 2, ones, k - 1);
      ShrOnce(v, k);
      DoubleProduct(And(Shr(v, k), ones), m);
    }
  }

  lemma ShrOnce(v: nat, k: nat)
    requires k > 0
    ensures Shr(v, k) == Shr(v / 2, k - 1)
  {
  }

  /** Masking with j ones above k zeroes selects digits k .. k+j-1 in place. */
  lemma AndField(v: nat, k: nat, j: nat)
    ensures And(v, (Pow2(j) - 1) * Pow2(k)) == v / Pow2(k) % Pow2(j) * Pow2(k)
  {
    AndShifted(v, Pow2(j) - 1, k);
    ShrDivides(v, k);
    AndLow(v / Pow2(k), j);
  }

  lemma DoubleProduct(a: nat, b: nat)
    ensures a * (2 * b) == 2 * (a * b)
  {}

  lemma AndDouble(v: nat, m: nat)
    ensures And(v, 2 * m) == 2 * And(v / 2, m)
  {
    assert 2 * m / 2 == m && 2 * m % 2 == 0;
  }

  /** Combining a value below 2^k with a multiple of 2^k is addition. */
  lemma {:induction false} OrDisjoint(a: nat, b: nat, k: nat)
    requires a < Pow2(k)
    ensures Or(a, b * Pow2(k)) == a + b * Pow2(k)
  {
    if k > 0 && a != 0 && b * Pow2(k) != 0 {
      var half := b * Pow2(k - 1);
      assert b * Pow2(k) == 2 * half;
      OrDisjoint(a / 2, b, k - 1);
    }
  }

  /** The test (e & 3) == 3 of is_valid_page reads the two lowest digits. */
  lemma AndThree(e: nat)
    ensures And(e, 3) == e % 4
  {
    AndLow(e, 2);
  }

  /** p | 3 and p | 7 on a page-aligned address. */
  lemma OrFlags(frame: nat, flags: nat)
    requires flags < 4096
    ensures Or(flags, frame * 4096) == frame * 4096 + flags
  {
    assert Pow2(12) == 4096;
    OrDisjoint(flags, frame, 12);
  }

  lemma {:induction false} OrCommutes(a: nat, b: nat)
    ensures Or(a, b) == Or(b, a)
  {
    if a != 0 && b != 0 {
      OrCommutes(a / 2, b / 2);
    }
  }
}
