/** Single bytes of memory words, least significant first. */
module Bytes {
  import opened Words
  import opened Mmu
  import opened CString

  function ByteOfWord(w: nat, k: nat): Byte {
    if k == 0 then w % 256 else ByteOfWord(w / 256, k - 1)
  }

  function PutByte(w: nat, k: nat, b: Byte): nat {
    if k == 0 then w / 256 * 256 + b else w % 256 + 256 * PutByte(w / 256, k - 1, b)
  }

  function Pow256(k: nat): (p: nat)
    ensures p > 0
  {
    if k == 0 then 1 else 256 * Pow256(k - 1)
  }

  lemma {:induction false} PutByteAt(w: nat, k: nat, b: Byte, j: nat)
    ensures ByteOfWord(PutByte(w, k, b), j) == if j == k then b else ByteOfWord(w, j)
  {
    if k == 0 {
      assert (w / 256 * 256 + b) % 256 == b && (w / 256 * 256 + b) / 256 == w / 256;
    } else {
      var high := PutByte(w / 256, k - 1, b);
      assert (w % 256 + 256 * high) % 256 == w % 256 && (w % 256 + 256 * high) / 256 == high;
      if j > 0 {
        PutByteAt(w / 256, k - 1, b, j - 1);
      }
    }
  }

  lemma {:induction false} PutByteFits(w: nat, k: nat, b: Byte, n: nat)
    requires w < Pow256(n) && k < n
    ensures PutByte(w, k, b) < Pow256(n)
  {
    if k == 0 {
      assert w / 256 < Pow256(n - 1);
      assert w / 256 * 256 + 256 <= 256 * Pow256(n - 1);
    } else {
      PutByteFits(w / 256, k - 1, b, n - 1);
    }
  }

  lemma Pow8Bytes()
    ensures Pow256(8) == 0x1_0000_0000_0000_0000
  {
    assert Pow256(2) == 0x1_0000;
    assert Pow256(4) == 256 * Pow256(3) && Pow256(3) == 256 * Pow256(2);
    assert Pow256(6) == 256 * Pow256(5) && Pow256(5) == 256 * Pow256(4);
    assert Pow256(8) == 256 * Pow256(7) && Pow256(7) == 256 * Pow256(6);
  }

  /** Byte k of a word replaced. */
  function WithByte(w: Word, k: nat, b: Byte): (w': Word)
    requires k < 8
    ensures forall j :: 0 <= j < 8 ==> ByteOfWord(w', j) == if j == k then b else ByteOfWord(w, j)
  {
    Pow8Bytes();
    PutByteFits(w, k, b, 8);
    assert forall j {:trigger ByteOfWord(PutByte(w, k, b), j)} :: 0 <= j < 8 ==>
      ByteOfWord(PutByte(w, k, b), j) == (if j == k then b else ByteOfWord(w, j)) by {
      forall j | 0 <= j < 8
        ensures ByteOfWord(PutByte(w, k, b), j) == if j == k then b else ByteOfWord(w, j)
      {
        PutByteAt(w, k, b, j);
      }
    }
    PutByte(w, k, b)
  }

  /** Byte `offset` of a frame. */
  function ReadByte(m: Memory, f: nat, offset: nat): Byte {
    ByteOfWord(Read(m, f, offset / 8), offset % 8)
  }

  function WriteByte(m: Memory, f: nat, offset: nat, b: Byte): Memory {
    Write(m, f, offset / 8, WithByte(Read(m, f, offset / 8), offset % 8, b))
  }

  lemma WriteByteAt(m: Memory, f: nat, offset: nat, b: Byte, g: nat, o: nat)
    ensures ReadByte(WriteByte(m, f, offset, b), g, o) == if f == g && offset == o then b else ReadByte(m, g, o)
  {
    hide ByteOfWord, WithByte;
    assert offset == 8 * (offset / 8) + offset % 8 && o == 8 * (o / 8) + o % 8;
  }
}
