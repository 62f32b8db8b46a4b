/** Bits and bytes of unsigned machine words, as arithmetic on naturals. */
module Bits {
  import opened Types

  const WORD_BITS := 64

  function Pow2(n: nat): (p: nat)
    ensures p > 0
  {
    if n == 0 then 1 else 2 * Pow2(n - 1)
  }

  predicate HasBit(w: nat, b: nat) {
    if b == 0 then w % 2 == 1 else HasBit(w / 2, b - 1)
  }

  /** The word with one bit switched on. */
  function WithBit(w: nat, b: nat): nat {
    if b == 0 then w + 1 - w % 2 else 2 * WithBit(w / 2, b - 1) + w % 2
  }

  lemma {:induction false} WithBitAt(w: nat, b: nat, c: nat)
    ensures HasBit(WithBit(w, b), c) <==> b == c || HasBit(w, c)
  {
    if b > 0 && c > 0 { WithBitAt(w / 2, b - 1, c - 1); }
  }

  lemma {:induction false} WithBitFits(w: nat, b: nat, n: nat)
    requires w < Pow2(n) && b < n
    ensures WithBit(w, b) < Pow2(n)
  {
    if b > 0 { WithBitFits(w / 2, b - 1, n - 1); }
  }

  lemma {:induction false} NoBits(b: nat)
    ensures !HasBit(0, b)
  {
    if b > 0 { NoBits(b - 1); }
  }

  // ----- Little-endian bytes -----

  /** The low `n` bytes of a word, least significant first. */
  function ToLittleEndian(w: nat, n: nat): (bytes: Bytes)
    ensures |bytes| == n
  {
    if n == 0 then [] else [w % 256] + ToLittleEndian(w / 256, n - 1)
  }

  function FromLittleEndian(bytes: Bytes): nat {
    if bytes == [] then 0 else bytes[0] + 256 * FromLittleEndian(bytes[1..])
  }

  function Pow256(n: nat): (p: nat)
    ensures p > 0
  {
    if n == 0 then 1 else 256 * Pow256(n - 1)
  }

  /** A word that fits is its bytes. */
  lemma {:induction false} LittleEndianRoundTrip(w: nat, n: nat)
    requires w < Pow256(n)
    ensures FromLittleEndian(ToLittleEndian(w, n)) == w
  {
    if n > 0 {
      LittleEndianRoundTrip(w / 256, n - 1);
      assert ToLittleEndian(w, n)[1..] == ToLittleEndian(w / 256, n - 1);
    }
  }

  /** Bytes read as a word and written out are the same bytes. */
  lemma {:induction false} BytesRoundTrip(bytes: Bytes)
    ensures ToLittleEndian(FromLittleEndian(bytes), |bytes|) == bytes && FromLittleEndian(bytes) < Pow256(|bytes|)
  {
    if bytes != [] {
      BytesRoundTrip(bytes[1..]);
      assert bytes == [bytes[0]] + bytes[1..];
    }
  }

  lemma {:induction false} ByteBits(n: nat)
    ensures Pow256(n) == Pow2(8 * n)
  {
    if n > 0 {
      ByteBits(n - 1);
      var k := 8 * n;
      assert Pow2(k) == 2 * Pow2(k - 1) && Pow2(k - 1) == 2 * Pow2(k - 2) && Pow2(k - 2) == 2 * Pow2(k - 3);
      assert Pow2(k - 3) == 2 * Pow2(k - 4) && Pow2(k - 4) == 2 * Pow2(k - 5) && Pow2(k - 5) == 2 * Pow2(k - 6);
      assert Pow2(k - 6) == 2 * Pow2(k - 7) && Pow2(k - 7) == 2 * Pow2(k - 8);
    }
  }
}
