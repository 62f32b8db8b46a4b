/**
 * Bitmaps of parts: words of bits, their form on the wire, and the bitmap object that gossip keeps for
 * a peer.
 */
module Bitmaps {
  import opened Types
  import opened Bits
  import opened PartSets

  /** Words needed for a number of bits. */
  function Words(total: nat): nat { (total + WORD_BITS - 1) / WORD_BITS }

  /** Bit `i` of a list of words. */
  predicate BitOf(words: seq<nat>, i: nat)
    requires i / WORD_BITS < |words|
  {
    HasBit(words[i / WORD_BITS], i % WORD_BITS)
  }

  /** The words with bit `i` switched on. */
  function WithBitOf(words: seq<nat>, i: nat): seq<nat>
    requires i / WORD_BITS < |words|
  {
    words[i / WORD_BITS := WithBit(words[i / WORD_BITS], i % WORD_BITS)]
  }

  lemma WithBitOfAt(words: seq<nat>, i: nat, k: nat)
    requires i / WORD_BITS < |words| && k / WORD_BITS < |words|
    ensures BitOf(WithBitOf(words, i), k) <==> i == k || BitOf(words, k)
  {
    WithBitAt(words[i / WORD_BITS], i % WORD_BITS, k % WORD_BITS);
  }

  ghost predicate Fits(words: seq<nat>) {
    forall w :: 0 <= w < |words| ==> words[w] < Pow2(WORD_BITS)
  }

  lemma WithBitOfFits(words: seq<nat>, i: nat)
    requires i / WORD_BITS < |words| && Fits(words)
    ensures Fits(WithBitOf(words, i))
  {
    WithBitFits(words[i / WORD_BITS], i % WORD_BITS, WORD_BITS);
  }

  lemma NoBitOf(words: seq<nat>, i: nat)
    requires i / WORD_BITS < |words| && words[i / WORD_BITS] == 0
    ensures !BitOf(words, i)
  {
    NoBits(i % WORD_BITS);
  }

  /** Which of the first `total` bits are set. */
  function BitFlags(words: seq<nat>, total: nat): seq<bool>
    requires |words| == Words(total)
  {
    seq(total, i requires 0 <= i < total => BitOf(words, i))
  }

  // ----- Lists of indexes -----

  /** The positions that are marked, in increasing order. */
  function Marked(flags: seq<bool>): seq<nat> {
    if flags == [] then [] else
      Marked(flags[..|flags| - 1]) + if flags[|flags| - 1] then [|flags| - 1] else []
  }

  lemma {:induction false} MarkedExactly(flags: seq<bool>)
    ensures forall i: nat :: i in Marked(flags) <==> i < |flags| && flags[i]
    ensures forall j, k :: 0 <= j < k < |Marked(flags)| ==> Marked(flags)[j] < Marked(flags)[k]
  {
    if flags != [] {
      var rest := flags[..|flags| - 1];
      MarkedExactly(rest);
      forall k | 0 <= k < |Marked(rest)| ensures Marked(rest)[k] < |rest| { assert Marked(rest)[k] in Marked(rest); }
    }
  }

  // ----- On the wire -----

  function WordBytes(words: seq<nat>): (bytes: Bytes)
    ensures |bytes| == 8 * |words|
  {
    if words == [] then [] else WordBytes(words[..|words| - 1]) + ToLittleEndian(words[|words| - 1], 8)
  }

  function BytesToWords(bytes: Bytes, n: nat): (words: seq<nat>)
    requires 8 * n <= |bytes|
    ensures |words| == n
  {
    if n == 0 then [] else BytesToWords(bytes, n - 1) + [FromLittleEndian(bytes[8 * (n - 1)..8 * n])]
  }

  datatype Bitmap = Bitmap(total: nat, words: seq<nat>)

  /** A bitmap on the wire: two bytes for the total, then eight bytes for each word. */
  function Encode(b: Bitmap): Bytes { ToLittleEndian(b.total, 2) + WordBytes(b.words) }

  datatype BitmapError = TooShort | TotalTooLarge | Incomplete

  datatype BitmapResult = Decoded(bitmap: Bitmap) | Undecodable(error: BitmapError)

  function Decode(data: Bytes): BitmapResult {
    if |data| < 2 then Undecodable(TooShort) else
      var total := FromLittleEndian(data[..2]);
      if total > MAX_BLOCK_PARTS then Undecodable(TotalTooLarge)
      else if |data| < 2 + 8 * Words(total) then Undecodable(Incomplete)
      else Decoded(Bitmap(total, BytesToWords(data[2..], Words(total))))
  }

  lemma {:induction false} WordsRoundTrip(words: seq<nat>, n: nat)
    requires n <= |words| && Fits(words)
    ensures BytesToWords(WordBytes(words), n) == words[..n]
  {
    hide ToLittleEndian, FromLittleEndian, Pow256, Pow2, WordBytes;
    if n > 0 {
      WordsRoundTrip(words, n - 1);
      WordSlice(words, n - 1);
      ByteBits(8);
      LittleEndianRoundTrip(words[n - 1], 8);
      assert words[..n] == words[..n - 1] + [words[n - 1]];
    }
  }

  lemma {:induction false} WordSlice(words: seq<nat>, i: nat)
    requires i < |words|
    ensures WordBytes(words)[8 * i..8 * (i + 1)] == ToLittleEndian(words[i], 8)
  {
    var n := |words| - 1;
    if i < n {
      WordSlice(words[..n], i);
      assert WordBytes(words)[8 * i..8 * (i + 1)] == WordBytes(words[..n])[8 * i..8 * (i + 1)];
    } else {
      assert WordBytes(words)[8 * i..8 * (i + 1)] == ToLittleEndian(words[i], 8);
    }
  }

  /** A bitmap written out is read back, whatever follows it, exactly when it has no more parts than a block may. */
  lemma BitmapRoundTrip(b: Bitmap, rest: Bytes)
    requires b.total < 65536 && |b.words| == Words(b.total) && Fits(b.words)
    ensures Decode(Encode(b) + rest) == if b.total <= MAX_BLOCK_PARTS then Decoded(b) else Undecodable(TotalTooLarge)
  {
    hide WordBytes, BytesToWords, ToLittleEndian, FromLittleEndian, Pow256, Fits;
    TwoBytes();
    var data := Encode(b) + rest;
    assert data[..2] == ToLittleEndian(b.total, 2);
    LittleEndianRoundTrip(b.total, 2);
    WordsRoundTrip(b.words, |b.words|);
    PrefixWords(WordBytes(b.words), rest, |b.words|);
    assert data[2..] == WordBytes(b.words) + rest && b.words[..|b.words|] == b.words;
  }

  lemma TwoBytes()
    ensures Pow256(2) == 65536
  {
    assert Pow256(1) == 256;
  }

  lemma {:induction false} PrefixWords(bytes: Bytes, rest: Bytes, n: nat)
    requires 8 * n <= |bytes|
    ensures BytesToWords(bytes + rest, n) == BytesToWords(bytes, n)
  {
    if n > 0 {
      PrefixWords(bytes, rest, n - 1);
      assert (bytes + rest)[8 * (n - 1)..8 * n] == bytes[8 * (n - 1)..8 * n];
    }
  }

  // ----- The object -----

  class PartSetBitmap {
    const total: nat
    const bits: array<nat>

    ghost predicate Valid()
      reads this, bits
    {
      bits.Length == Words(total) && Fits(bits[..])
    }

    function View(): Bitmap
      reads this, bits
    {
      Bitmap(total, bits[..])
    }

    /** The parts marked present. */
    ghost function Members(): set<nat>
      requires Valid()
      reads this, bits
    {
      set i | 0 <= i < total && BitOf(bits[..], i)
    }

    constructor (total: nat)
      ensures Valid() && this.total == total && fresh(bits) && Members() == {}
    {
      this.total := total;
      bits := new nat[Words(total)](_ => 0);
      new;
      forall i: nat | i < total ensures !BitOf(bits[..], i) { NoBitOf(bits[..], i); }
    }

    constructor Of(total: nat, words: seq<nat>)
      requires |words| == Words(total) && Fits(words)
      ensures Valid() && View() == Bitmap(total, words) && fresh(bits)
    {
      this.total := total;
      bits := new nat[|words|](i requires 0 <= i < |words| => words[i]);
    }

    method Set(index: nat)
      requires Valid()
      modifies bits
      ensures Valid() && Members() == old(Members()) + if index < total then {index} else {}
    {
      if index >= total { return; }
      ghost var words := bits[..];
      bits[index / WORD_BITS] := WithBit(bits[index / WORD_BITS], index % WORD_BITS);
      assert bits[..] == WithBitOf(words, index);
      WithBitOfFits(words, index);
      forall i: nat | i < total ensures BitOf(bits[..], i) <==> i == index || BitOf(words, i) {
        WithBitOfAt(words, index, i);
      }
    }

    method Has(index: nat) returns (has: bool)
      requires Valid()
      ensures has <==> index in Members()
    {
      if index >= total { return false; }
      has := HasBit(bits[index / WORD_BITS], index % WORD_BITS);
      assert has == BitOf(bits[..], index);
    }

    method Missing() returns (missing: seq<nat>)
      requires Valid()
      ensures forall i: nat :: i in missing <==> i < total && i !in Members()
      ensures forall j, k :: 0 <= j < k < |missing| ==> missing[j] < missing[k]
    {
      hide HasBit;
      ghost var flags := seq(total, i requires 0 <= i < total reads this, bits requires Valid() => !BitOf(bits[..], i));
      missing := [];
      for i := 0 to total
        invariant missing == Marked(flags[..i])
      {
        assert flags[..i + 1][..i] == flags[..i];
        if !HasBit(bits[i / WORD_BITS], i % WORD_BITS) { missing := missing + [i]; }
      }
      assert flags[..total] == flags;
      MarkedExactly(flags);
    }

    method ToBytes() returns (data: Bytes)
      requires Valid() && total < 65536
      ensures data == Encode(View())
    {
      hide HasBit, Fits, ToLittleEndian;
      var body := [];
      for i := 0 to bits.Length
        invariant body == WordBytes(bits[..i])
      {
        assert bits[..i + 1][..i] == bits[..i];
        var piece := LowBytes(bits[i], 8);
        body := body + piece;
      }
      assert bits[..bits.Length] == bits[..];
      var header := LowBytes(total, 2);
      data := header + body;
    }

    /** Parts that this peer has and the other has not marked; bits past the other's total count as marked. */
    method Diff(other: PartSetBitmap) returns (diff: seq<nat>)
      requires Valid() && other.Valid()
      ensures diff == Marked(DiffFlags(View(), other.View()))
    {
      hide HasBit, Fits;
      ghost var flags := DiffFlags(View(), other.View());
      diff := [];
      for i := 0 to total
        invariant diff == Marked(flags[..i])
      {
        assert flags[..i + 1][..i] == flags[..i];
        var hasSelf := HasBit(bits[i / WORD_BITS], i % WORD_BITS);
        var hasOther := false;
        if i / WORD_BITS < other.bits.Length { hasOther := HasBit(other.bits[i / WORD_BITS], i % WORD_BITS); }
        if hasSelf && !hasOther { diff := diff + [i]; }
      }
      assert flags[..total] == flags;
    }
  }

  /** The low bytes of a word, shifted out one after the other. */
  method LowBytes(word: nat, n: nat) returns (bytes: Bytes)
    ensures bytes == ToLittleEndian(word, n)
  {
    var w := word;
    bytes := [];
    for j := 0 to n
      invariant bytes + ToLittleEndian(w, n - j) == ToLittleEndian(word, n)
    {
      assert bytes + ([w % 256] + ToLittleEndian(w / 256, n - j - 1))
        == (bytes + [w % 256]) + ToLittleEndian(w / 256, n - j - 1);
      bytes := bytes + [w % 256];
      w := w / 256;
    }
  }

  method FromBytes(data: Bytes) returns (b: PartSetBitmap?, error: Option<BitmapError>)
    ensures match Decode(data)
      case Undecodable(e) => b == null && error == Some(e)
      case Decoded(bitmap) => error == None && b != null && fresh(b) && b.Valid() && b.View() == bitmap
  {
    hide FromLittleEndian;
    if |data| < 2 { return null, Some(TooShort); }
    var total := FromLittleEndian(data[..2]);
    if total > MAX_BLOCK_PARTS { return null, Some(TotalTooLarge); }
    var n := Words(total);
    if |data| < 2 + 8 * n { return null, Some(Incomplete); }
    var words, body := [], data[2..];
    for i := 0 to n
      invariant words == BytesToWords(body, i) && Fits(words)
    {
      WordFits(body[8 * i..8 * (i + 1)]);
      words := words + [FromLittleEndian(body[8 * i..8 * (i + 1)])];
    }
    b := new PartSetBitmap.Of(total, words);
    error := None;
  }

  lemma WordFits(bytes: Bytes)
    requires |bytes| == 8
    ensures FromLittleEndian(bytes) < Pow2(WORD_BITS)
  {
    BytesRoundTrip(bytes);
    ByteBits(8);
  }

  // ----- What a difference lists -----

  function DiffFlags(a: Bitmap, b: Bitmap): seq<bool>
    requires |a.words| == Words(a.total)
  {
    seq(a.total, i requires 0 <= i < a.total =>
      BitOf(a.words, i) && !(i / WORD_BITS < |b.words| && BitOf(b.words, i)))
  }

  ghost predicate HasPart(b: Bitmap, i: nat)
    requires |b.words| == Words(b.total)
  {
    i < b.total && BitOf(b.words, i)
  }

  /** A bit is set past the last part of `b`, at a part that `a` has. */
  ghost predicate StrayBit(a: Bitmap, b: Bitmap, i: nat)
    requires |a.words| == Words(a.total)
  {
    i >= b.total && i / WORD_BITS < |b.words| && BitOf(b.words, i) && HasPart(a, i)
  }

  /** The difference lists exactly the parts that one has and the other has not, unless there are stray bits. */
  lemma DiffExact(a: Bitmap, b: Bitmap)
    requires |a.words| == Words(a.total) && |b.words| == Words(b.total)
    ensures (forall i: nat :: i in Marked(DiffFlags(a, b)) <==> HasPart(a, i) && !HasPart(b, i))
      <==> forall i: nat :: !StrayBit(a, b, i)
  {
    hide HasBit, BitOf;
    MarkedExactly(DiffFlags(a, b));
    forall i: nat ensures i in Marked(DiffFlags(a, b)) <==> HasPart(a, i) && !HasPart(b, i) && !StrayBit(a, b, i) {}
  }

  lemma {:induction false} ZeroBytes(n: nat)
    ensures forall i :: 0 <= i < n ==> ToLittleEndian(0, n)[i] == 0
  {
    if n > 0 { ZeroBytes(n - 1); }
  }

  lemma {:induction false} PowerExceeds(n: nat)
    ensures Pow2(n) > n
  {
    if n > 0 { PowerExceeds(n - 1); }
  }

  lemma OnePartBytes(data: Bytes)
    requires data == [1, 0, 2, 0, 0, 0, 0, 0, 0, 0]
    ensures Encode(Bitmap(1, [2])) == data
  {
    ZeroBytes(1);
    ZeroBytes(7);
    assert ToLittleEndian(1, 2) == [1] + ToLittleEndian(0, 1);
    assert ToLittleEndian(2, 8) == [2] + ToLittleEndian(0, 7);
    assert [2][..0] == [] && WordBytes([2]) == ToLittleEndian(2, 8);
  }

  /** Stray bits can come from the wire: this bitmap of one part marks a second one, and hides it. */
  lemma StrayBitDecoded() returns (a: Bitmap, b: Bitmap)
    ensures Decode([1, 0, 2, 0, 0, 0, 0, 0, 0, 0]) == Decoded(b) && a == Bitmap(2, [2])
    ensures HasPart(a, 1) && !HasPart(b, 1) && 1 !in Marked(DiffFlags(a, b))
  {
    a, b := Bitmap(2, [2]), Bitmap(1, [2]);
    var data: Bytes := [1, 0, 2, 0, 0, 0, 0, 0, 0, 0];
    OnePartBytes(data);
    PowerExceeds(WORD_BITS);
    BitmapRoundTrip(b, []);
    assert data + [] == data;
    assert HasBit(2, 1) by { assert HasBit(1, 0); }
    MarkedExactly(DiffFlags(a, b));
  }
}
