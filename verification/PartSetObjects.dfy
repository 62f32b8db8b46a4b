/**
 * Part sets as the mutable objects of the engine, with their count and words of bits, proved against
 * the values of module PartSets.
 */
module PartSetObjects {
  import opened Types
  import opened Bitmaps
  import opened Bits
  import opened Merkle
  import opened PartSets

  function CountParts(parts: seq<Option<BlockPart>>): (n: nat)
    ensures n <= |parts|
  {
    if parts == [] then 0 else
      CountParts(parts[..|parts| - 1]) + if parts[|parts| - 1].Some? then 1 else 0
  }

  lemma {:induction false} CountOneMore(parts: seq<Option<BlockPart>>, i: nat, part: BlockPart)
    requires i < |parts| && parts[i].None?
    ensures CountParts(parts[i := Some(part)]) == CountParts(parts) + 1
  {
    var n := |parts| - 1;
    if i < n {
      CountOneMore(parts[..n], i, part);
      assert parts[i := Some(part)][..n] == parts[..n][i := Some(part)];
    } else {
      assert parts[i := Some(part)][..n] == parts[..n];
    }
  }

  /** A part set is complete exactly when the count has reached the total. */
  lemma {:induction false} CountIsTotal(parts: seq<Option<BlockPart>>)
    ensures CountParts(parts) == |parts| <==> forall i :: 0 <= i < |parts| ==> parts[i].Some?
  {
    if parts != [] {
      var rest := parts[..|parts| - 1];
      CountIsTotal(rest);
      assert (forall i :: 0 <= i < |parts| ==> parts[i].Some?) ==> forall i :: 0 <= i < |rest| ==> rest[i].Some?;
    }
  }

  function Absent(parts: seq<Option<BlockPart>>): seq<bool> {
    seq(|parts|, i requires 0 <= i < |parts| => parts[i].None?)
  }

  class PartSet {
    const total: nat
    const hash: Bytes
    const parts: array<Option<BlockPart>>
    const partsBits: array<nat>
    var partsCount: nat
    var data: Option<Bytes>

    ghost predicate Valid()
      reads this, parts, partsBits
    {
      && parts.Length == total && partsBits.Length == Words(total) && partsCount == CountParts(parts[..])
      && Fits(partsBits[..])
      && forall i: nat :: i < total ==> (BitOf(partsBits[..], i) <==> parts[i].Some?)
    }

    function View(): Parts
      reads this, parts
    {
      Parts(total, hash, parts[..], data)
    }

    constructor FromHeader(header: Header)
      ensures Valid() && View() == PartSets.FromHeader(header) && fresh(parts) && fresh(partsBits)
    {
      total, hash, partsCount, data := header.total, header.hash, 0, None;
      parts := new Option<BlockPart>[header.total](_ => None);
      partsBits := new nat[Words(header.total)](_ => 0);
      new;
      NoneYet(parts[..]);
      forall i: nat | i < total ensures !BitOf(partsBits[..], i) { NoBitOf(partsBits[..], i); }
      assert parts[..] == PartSets.FromHeader(header).parts;
    }

    constructor Whole(total: nat, hash: Bytes, parts: array<Option<BlockPart>>, partsBits: array<nat>, data: Bytes)
      ensures this.total == total && this.hash == hash && this.parts == parts && this.partsBits == partsBits
      ensures partsCount == total && this.data == Some(data)
    {
      this.total, this.hash, this.parts, this.partsBits := total, hash, parts, partsBits;
      partsCount, this.data := total, Some(data);
    }

    method HasPart(index: nat) returns (has: bool)
      requires Valid()
      ensures has == View().HasPart(index)
    {
      if index >= total { return false; }
      has := HasBit(partsBits[index / WORD_BITS], index % WORD_BITS);
      assert has == BitOf(partsBits[..], index);
    }

    method AddPart(sha: Sha256, part: BlockPart) returns (error: Option<PartError>)
      requires Valid()
      modifies this, parts, partsBits
      ensures Valid() && (View(), error) == PartSets.AddPart(sha, old(View()), part)
    {
      hide Fold, RootOf, Concat, Hashes, PartBytes;
      if part.index >= total { return Some(InvalidIndex); }
      if |part.bytes| > BLOCK_PART_SIZE { return Some(PartTooLarge); }
      var has := HasPart(part.index);
      if has { return Some(AlreadyHas); }
      var ok := VerifyMerkleProof(sha, sha(part.bytes), part.index, part.proofPath, hash);
      if !ok { return Some(InvalidProof); }
      Place(part);
      CountIsTotal(parts[..]);
      if partsCount == total { error := AssembleData(sha); } else { error := None; }
    }

    method Place(part: BlockPart)
      requires Valid() && part.index < total && parts[part.index].None?
      modifies this, parts, partsBits
      ensures Valid() && View() == old(View()).(parts := old(View()).parts[part.index := Some(part)])
    {
      ghost var words, before := partsBits[..], parts[..];
      var w := part.index / WORD_BITS;
      parts[part.index] := Some(part);
      partsBits[w] := WithBit(partsBits[w], part.index % WORD_BITS);
      partsCount := partsCount + 1;
      assert parts[..] == before[part.index := Some(part)];
      CountOneMore(before, part.index, part);
      assert partsBits[..] == WithBitOf(words, part.index);
      WithBitOfFits(words, part.index);
      forall i: nat | i < total ensures BitOf(partsBits[..], i) <==> parts[i].Some? {
        WithBitOfAt(words, part.index, i);
      }
    }

    method AssembleData(sha: Sha256) returns (error: Option<PartError>)
      requires Valid() && View().IsComplete()
      modifies this`data
      ensures Valid() && (View(), error) == Assemble(sha, old(View()))
    {
      hide RootOf, HasBit, CountParts, BitOf, Fits;
      ghost var pieces := PartBytes(parts[..]);
      var assembled, hashes := [], [];
      for i := 0 to parts.Length
        invariant assembled == Concat(pieces[..i]) && hashes == Hashes(sha, pieces[..i])
      {
        assert pieces[..i + 1] == pieces[..i] + [parts[i].value.bytes];
        assert pieces[..i + 1][..i] == pieces[..i];
        assembled := assembled + parts[i].value.bytes;
        hashes := hashes + [sha(parts[i].value.bytes)];
      }
      assert pieces[..parts.Length] == pieces;
      var computed := ComputeMerkleRoot(sha, hashes);
      if computed != hash {
        data := None;
        return Some(AssemblyMismatch);
      }
      data := Some(assembled);
      error := None;
    }

    /** The data, once every part is there and assembly has succeeded. */
    method GetData() returns (r: Option<Bytes>)
      requires Valid()
      ensures r == if View().IsComplete() then data else None
    {
      CountIsTotal(parts[..]);
      if partsCount != total { return None; }
      r := data;
    }

    /** The indexes of the parts that are not there, in increasing order. */
    method MissingParts() returns (missing: seq<nat>)
      requires Valid()
      ensures missing == Marked(Absent(View().parts))
    {
      hide HasBit, BitOf, Fits, CountParts;
      ghost var flags := Absent(parts[..]);
      missing := [];
      for i := 0 to total
        invariant missing == Marked(flags[..i])
      {
        var has := HasPart(i);
        assert flags[..i + 1][..i] == flags[..i];
        if !has { missing := missing + [i]; }
      }
      assert flags[..total] == flags;
    }
  }

  /** An empty part set for a header, unless the header asks for too many parts. */
  method NewPartSetFromHeader(header: Header) returns (ps: PartSet?, error: Option<PartError>)
    ensures header.total > MAX_BLOCK_PARTS ==> ps == null && error == Some(TooManyParts)
    ensures header.total <= MAX_BLOCK_PARTS ==>
      error == None && ps != null && fresh(ps) && ps.Valid() && ps.View() == PartSets.FromHeader(header)
  {
    if header.total > MAX_BLOCK_PARTS { return null, Some(TooManyParts); }
    error := None;
    ps := new PartSet.FromHeader(header);
  }

  /** Splits data into parts, hashes them, builds the tree and attaches the proofs. */
  method NewPartSetFromData(sha: Sha256, data: Bytes) returns (ps: PartSet?, error: Option<PartError>)
    ensures data == [] ==> ps == null && error == Some(EmptyData)
    ensures data != [] && PartCount(|data|) > MAX_BLOCK_PARTS ==> ps == null && error == Some(TooManyParts)
    ensures data != [] && PartCount(|data|) <= MAX_BLOCK_PARTS ==>
      error == None && ps != null && fresh(ps) && ps.Valid() && ps.View() == FromData(sha, data)
  {
    hide Path, Root, Chunk, Hashes, CountParts, BitOf, HasBit;
    if |data| == 0 { return null, Some(EmptyData); }
    var total := PartCount(|data|);
    if total > MAX_BLOCK_PARTS { return null, Some(TooManyParts); }
    var root, parts := AllParts(sha, data);
    var bits := AllBits(total);
    ps := new PartSet.Whole(total, root, parts, bits, data);
    error := None;
    CountIsTotal(parts[..]);
  }

  /** The parts of data with their proofs. */
  method AllParts(sha: Sha256, data: Bytes) returns (root: Bytes, parts: array<Option<BlockPart>>)
    requires data != []
    ensures fresh(parts) && root == DataHash(sha, data) && parts[..] == FromData(sha, data).parts
  {
    hide Path, Root, Chunk;
    var pieces, leaves := SplitData(sha, data);
    var paths;
    root, paths := BuildMerkleTreeWithProofs(sha, leaves);
    var total := PartCount(|data|);
    parts := new Option<BlockPart>[total](_ => None);
    for i := 0 to total
      invariant forall k :: 0 <= k < i ==> parts[k] == Some(BlockPart(k, pieces[k], paths[k], root))
    {
      parts[i] := Some(BlockPart(i, pieces[i], paths[i], root));
    }
    AllThere(sha, data, parts[..]);
  }

  lemma AllThere(sha: Sha256, data: Bytes, parts: seq<Option<BlockPart>>)
    requires data != [] && |parts| == PartCount(|data|)
    requires forall k :: 0 <= k < |parts| ==>
      parts[k] == Some(BlockPart(k, Chunks(data)[k], Path(sha, Hashes(sha, Chunks(data)), k), DataHash(sha, data)))
    ensures parts == FromData(sha, data).parts
  {
    hide Path, Root, Chunk, PartCount, Hashes;
    PositivePartCount(data);
    SameLength(sha, Chunks(data));
  }

  lemma SameLength(sha: Sha256, pieces: seq<Bytes>)
    ensures |Hashes(sha, pieces)| == |pieces|
  {}

  method SplitData(sha: Sha256, data: Bytes) returns (pieces: seq<Bytes>, leaves: seq<Bytes>)
    ensures pieces == Chunks(data) && leaves == Hashes(sha, Chunks(data))
  {
    pieces, leaves := [], [];
    for i := 0 to PartCount(|data|)
      invariant |pieces| == |leaves| == i
      invariant forall k :: 0 <= k < i ==> pieces[k] == Chunk(data, k) && leaves[k] == sha(Chunk(data, k))
    {
      var start := i * BLOCK_PART_SIZE;
      var end := start + BLOCK_PART_SIZE;
      if end > |data| { end := |data|; }
      var piece := data[start..end];
      pieces, leaves := pieces + [piece], leaves + [sha(piece)];
    }
    assert pieces == Chunks(data);
    assert leaves == Hashes(sha, pieces);
  }

  /** Words with the first `total` bits switched on. */
  method AllBits(total: nat) returns (bits: array<nat>)
    ensures fresh(bits) && bits.Length == Words(total) && Fits(bits[..])
    ensures forall i: nat :: i < total ==> BitOf(bits[..], i)
  {
    bits := new nat[Words(total)](_ => 0);
    for i := 0 to total
      invariant Fits(bits[..]) && forall k: nat :: k < i ==> BitOf(bits[..], k)
    {
      ghost var words := bits[..];
      bits[i / WORD_BITS] := WithBit(bits[i / WORD_BITS], i % WORD_BITS);
      assert bits[..] == WithBitOf(words, i);
      WithBitOfFits(words, i);
      forall k: nat | k <= i ensures BitOf(bits[..], k) { WithBitOfAt(words, i, k); }
    }
  }

  lemma {:induction false} NoneYet(parts: seq<Option<BlockPart>>)
    requires forall i :: 0 <= i < |parts| ==> parts[i].None?
    ensures CountParts(parts) == 0
  {
    if parts != [] { NoneYet(parts[..|parts| - 1]); }
  }
}
