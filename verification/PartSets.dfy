/**
 * Block parts: splitting data into parts with Merkle proofs, collecting parts in any order, and
 * assembling them again.
 */
module PartSets {
  import opened Types
  import opened Merkle

  const BLOCK_PART_SIZE := 65536
  const MAX_BLOCK_PARTS := 1024

  datatype BlockPart = BlockPart(index: nat, bytes: Bytes, proofPath: seq<Bytes>, proofRoot: Bytes)

  datatype Header = Header(total: nat, hash: Bytes)

  datatype PartError = InvalidIndex | PartTooLarge | AlreadyHas | InvalidProof | AssemblyMismatch | EmptyData
    | TooManyParts

  /** The state of a part set; `data` is there once assembly has succeeded. */
  datatype Parts = Parts(total: nat, hash: Bytes, parts: seq<Option<BlockPart>>, data: Option<Bytes>) {

    predicate HasPart(i: nat) { i < |parts| && parts[i].Some? }

    predicate IsComplete() { forall i :: 0 <= i < |parts| ==> parts[i].Some? }

    /** What holds of every part set reached from a header or from data. */
    ghost predicate Valid(sha: Sha256) {
      && |parts| == total
      && (forall i :: 0 <= i < |parts| && parts[i].Some? ==> parts[i].value.index == i)
      && (data.Some? ==>
          IsComplete() && data.value == Concat(PartBytes(parts)) && RootOf(sha, Hashes(sha, PartBytes(parts))) == hash)
    }
  }

  /** The bytes of the parts; a missing part counts as empty. */
  function PartBytes(parts: seq<Option<BlockPart>>): seq<Bytes> {
    seq(|parts|, i requires 0 <= i < |parts| => if parts[i].Some? then parts[i].value.bytes else [])
  }

  function Hashes(sha: Sha256, pieces: seq<Bytes>): seq<Bytes> {
    seq(|pieces|, i requires 0 <= i < |pieces| => sha(pieces[i]))
  }

  function Concat(pieces: seq<Bytes>): Bytes {
    if pieces == [] then [] else Concat(pieces[..|pieces| - 1]) + pieces[|pieces| - 1]
  }

  // ----- Making part sets -----

  /** Number of parts that data of this length is split into. */
  function PartCount(length: nat): nat { (length + BLOCK_PART_SIZE - 1) / BLOCK_PART_SIZE }

  function Chunk(data: Bytes, i: nat): Bytes
    requires i < PartCount(|data|)
  {
    var end := (i + 1) * BLOCK_PART_SIZE;
    data[i * BLOCK_PART_SIZE..if end > |data| then |data| else end]
  }

  function Chunks(data: Bytes): seq<Bytes> {
    seq(PartCount(|data|), i requires 0 <= i < PartCount(|data|) => Chunk(data, i))
  }

  /** The parts of data: the part at each index with the proof the tree builder gives it. */
  function PartOf(sha: Sha256, data: Bytes, i: nat): BlockPart
    requires i < PartCount(|data|)
  {
    var leaves := Hashes(sha, Chunks(data));
    BlockPart(i, Chunk(data, i), Path(sha, leaves, i), Root(sha, leaves))
  }

  function DataHash(sha: Sha256, data: Bytes): Bytes { RootOf(sha, Hashes(sha, Chunks(data))) }

  function FromData(sha: Sha256, data: Bytes): Parts
    requires data != []
  {
    Parts(PartCount(|data|), DataHash(sha, data),
          seq(PartCount(|data|), i requires 0 <= i < PartCount(|data|) => Some(PartOf(sha, data, i))),
          Some(data))
  }

  function FromHeader(header: Header): Parts {
    Parts(header.total, header.hash, seq(header.total, _ => None), None)
  }

  // ----- Adding a part -----

  function Assemble(sha: Sha256, p: Parts): (Parts, Option<PartError>) {
    var pieces := PartBytes(p.parts);
    if RootOf(sha, Hashes(sha, pieces)) == p.hash then (p.(data := Some(Concat(pieces))), None)
    else (p.(data := None), Some(AssemblyMismatch))
  }

  function AddPart(sha: Sha256, p: Parts, part: BlockPart): (r: (Parts, Option<PartError>))
    requires |p.parts| == p.total
    ensures |r.0.parts| == r.0.total == p.total && r.0.hash == p.hash
  {
    if part.index >= p.total then (p, Some(InvalidIndex))
    else if |part.bytes| > BLOCK_PART_SIZE then (p, Some(PartTooLarge))
    else if p.HasPart(part.index) then (p, Some(AlreadyHas))
    else if !Verifies(sha, sha(part.bytes), part.index, part.proofPath, p.hash) then (p, Some(InvalidProof))
    else
      var p' := p.(parts := p.parts[part.index := Some(part)]);
      if p'.IsComplete() then Assemble(sha, p') else (p', None)
  }

  /**
   * A part is stored exactly when its index and size are within bounds, its slot is empty and its proof
   * leads to the hash of the set; only its slot changes.
   */
  lemma StoredIff(sha: Sha256, p: Parts, part: BlockPart)
    requires |p.parts| == p.total
    ensures var p' := AddPart(sha, p, part).0;
      && (p'.parts != p.parts <==>
            && part.index < p.total && |part.bytes| <= BLOCK_PART_SIZE && p.parts[part.index].None?
            && Verifies(sha, sha(part.bytes), part.index, part.proofPath, p.hash))
      && (p'.parts != p.parts ==> p'.parts == p.parts[part.index := Some(part)])
  {
    hide Verifies, RootOf, Hashes;
    if part.index < p.total {
      var stored := p.parts[part.index := Some(part)];
      assert stored[part.index] == Some(part);
    }
  }

  /** Adding a part keeps a part set valid. */
  lemma AddKeepsValid(sha: Sha256, p: Parts, part: BlockPart)
    requires p.Valid(sha)
    ensures AddPart(sha, p, part).0.Valid(sha)
  {
    hide RootOf, Concat, Hashes, Verifies;
  }

  // ----- Splitting and joining -----

  lemma {:induction false} ConcatChunks(data: Bytes, k: nat)
    requires k <= PartCount(|data|)
    ensures Concat(Chunks(data)[..k]) == data[..if k * BLOCK_PART_SIZE > |data| then |data| else k * BLOCK_PART_SIZE]
  {
    if k > 0 {
      ConcatChunks(data, k - 1);
      var pieces := Chunks(data)[..k];
      assert pieces[..k - 1] == Chunks(data)[..k - 1] && pieces[k - 1] == Chunk(data, k - 1);
    }
  }

  /** The chunks of data joined again are the data. */
  lemma ChunksRejoin(data: Bytes)
    ensures Concat(Chunks(data)) == data
  {
    ConcatChunks(data, PartCount(|data|));
    assert Chunks(data)[..PartCount(|data|)] == Chunks(data);
  }

  lemma FromDataValid(sha: Sha256, data: Bytes)
    requires data != []
    ensures FromData(sha, data).Valid(sha) && PartBytes(FromData(sha, data).parts) == Chunks(data)
  {
    hide RootOf, Concat, Chunk, PartCount;
    ChunksRejoin(data);
    assert PartBytes(FromData(sha, data).parts) == Chunks(data);
  }

  // ----- Collecting in any order -----

  /** The parts of `data` at the given indexes added one after the other to an empty set with its header. */
  function Collect(sha: Sha256, data: Bytes, order: seq<nat>): (p: Parts)
    requires data != [] && forall k :: 0 <= k < |order| ==> order[k] < PartCount(|data|)
    ensures |p.parts| == p.total == PartCount(|data|) && p.hash == DataHash(sha, data)
    decreases |order|
  {
    if order == [] then FromHeader(Header(PartCount(|data|), DataHash(sha, data))) else
      var before := Collect(sha, data, order[..|order| - 1]);
      AddPart(sha, before, PartOf(sha, data, order[|order| - 1])).0
  }

  predicate Covers(order: seq<nat>, n: nat) {
    forall i :: 0 <= i < n ==> i in order
  }

  /** Every genuine part is accepted once and refused when repeated. */
  lemma GenuinePart(sha: Sha256, data: Bytes, p: Parts, i: nat)
    requires data != [] && i < PartCount(|data|)
    requires |p.parts| == p.total == PartCount(|data|) && p.hash == DataHash(sha, data)
    ensures var part := PartOf(sha, data, i);
      AddPart(sha, p, part) ==
      if p.HasPart(i) then (p, Some(AlreadyHas))
      else
        var p' := p.(parts := p.parts[i := Some(part)]);
        if p'.IsComplete() then Assemble(sha, p') else (p', None)
  {
    hide Root, Path, Assemble, Parts.IsComplete;
    var leaves := Hashes(sha, Chunks(data));
    assert leaves[i] == sha(Chunk(data, i));
    ProofsVerify(sha, leaves, i);
  }

  /** What the set holds after any order of additions: exactly the parts added, and the data once complete. */
  ghost predicate Holding(sha: Sha256, data: Bytes, p: Parts, order: seq<nat>)
    requires data != []
  {
    && |p.parts| == PartCount(|data|) && p.hash == DataHash(sha, data)
    && (forall i :: 0 <= i < |p.parts| ==> p.parts[i] == if i in order then Some(PartOf(sha, data, i)) else None)
    && p.data == if Covers(order, |p.parts|) then Some(data) else None
  }

  lemma PositivePartCount(data: Bytes)
    requires data != []
    ensures PartCount(|data|) > 0
  {}

  /** Parts added in any order, with any repetition, give back exactly the data once all are there. */
  lemma {:induction false} AnyOrder(sha: Sha256, data: Bytes, order: seq<nat>)
    requires data != [] && forall k :: 0 <= k < |order| ==> order[k] < PartCount(|data|)
    ensures Holding(sha, data, Collect(sha, data, order), order)
    decreases |order|
  {
    hide PartOf, PartCount, RootOf;
    if order == [] {
      PositivePartCount(data);
      assert 0 !in order;
    } else {
      var rest, i := order[..|order| - 1], order[|order| - 1];
      AnyOrder(sha, data, rest);
      var before := Collect(sha, data, rest);
      GenuinePart(sha, data, before, i);
      HoldMore(sha, data, before, rest, i);
      assert order == rest + [i];
    }
  }

  lemma HoldMore(sha: Sha256, data: Bytes, p: Parts, order: seq<nat>, i: nat)
    requires data != [] && i < PartCount(|data|) && p.total == |p.parts| && Holding(sha, data, p, order)
    ensures p.HasPart(i) ==> Holding(sha, data, p, order + [i])
    ensures var p' := p.(parts := p.parts[i := Some(PartOf(sha, data, i))]);
      !p.HasPart(i) ==> Holding(sha, data, if p'.IsComplete() then Assemble(sha, p').0 else p', order + [i])
  {
    hide PartOf, PartCount, RootOf, Hashes, Concat;
    var more := order + [i];
    assert forall k :: k in more <==> k in order || k == i;
    if !p.HasPart(i) {
      var p' := p.(parts := p.parts[i := Some(PartOf(sha, data, i))]);
      assert i !in order && !Covers(order, |p.parts|);
      forall k | 0 <= k < |p.parts| ensures p'.parts[k] == if k in more then Some(PartOf(sha, data, k)) else None {}
      if Covers(more, |p.parts|) {
        assert forall k :: 0 <= k < |p.parts| ==> k in more;
      } else {
        var k :| 0 <= k < |p.parts| && k !in more;
        assert p'.parts[k].None?;
      }
      if p'.IsComplete() { CompleteAssembles(sha, data, p'); }
    }
  }

  lemma CompleteAssembles(sha: Sha256, data: Bytes, p: Parts)
    requires data != [] && |p.parts| == PartCount(|data|) && p.hash == DataHash(sha, data)
    requires forall i :: 0 <= i < |p.parts| ==> p.parts[i] == Some(PartOf(sha, data, i))
    ensures Assemble(sha, p) == (p.(data := Some(data)), None)
  {
    hide PartCount, RootOf, Concat, Chunk;
    assert PartBytes(p.parts) == Chunks(data);
    ChunksRejoin(data);
  }

  // ----- Binding -----

  /** The first of `k` pieces that differ, as a collision. */
  function PieceCollision(xs: seq<Bytes>, ys: seq<Bytes>, k: nat): Option<Collision>
    requires k <= |xs| == |ys|
  {
    if k == 0 then None
    else if PieceCollision(xs, ys, k - 1).Some? then PieceCollision(xs, ys, k - 1)
    else if xs[k - 1] != ys[k - 1] then Some(Collision(xs[k - 1], ys[k - 1]))
    else None
  }

  lemma {:induction false} PieceCollisionFound(sha: Sha256, xs: seq<Bytes>, ys: seq<Bytes>, k: nat)
    requires k <= |xs| == |ys| && Hashes(sha, xs) == Hashes(sha, ys)
    ensures if PieceCollision(xs, ys, k).Some? then Collides(sha, PieceCollision(xs, ys, k)) else xs[..k] == ys[..k]
  {
    if k > 0 {
      PieceCollisionFound(sha, xs, ys, k - 1);
      assert Hashes(sha, xs)[k - 1] == sha(xs[k - 1]) && Hashes(sha, ys)[k - 1] == sha(ys[k - 1]);
      assert xs[..k] == xs[..k - 1] + [xs[k - 1]] && ys[..k] == ys[..k - 1] + [ys[k - 1]];
    }
  }

  /** The collision that two lists of pieces with one root give away. */
  function PiecesCollision(sha: Sha256, xs: seq<Bytes>, ys: seq<Bytes>): Option<Collision>
    requires |xs| == |ys| > 0
  {
    var above := RootCollision(sha, Hashes(sha, xs), Hashes(sha, ys));
    if Collides(sha, above) then above else PieceCollision(xs, ys, |xs|)
  }

  /** Two complete part sets with the same header hold the same parts and data, or give a collision. */
  lemma PartSetBinding(sha: Sha256, p: Parts, q: Parts)
    requires Digests(sha) && p.Valid(sha) && q.Valid(sha) && p.data.Some? && q.data.Some?
    requires p.total == q.total && p.hash == q.hash
    ensures
      || (PartBytes(p.parts) == PartBytes(q.parts) && p.data == q.data)
      || (p.total > 0 && Collides(sha, PiecesCollision(sha, PartBytes(p.parts), PartBytes(q.parts))))
  {
    hide Root, RootCollision, Concat, Hashes, PartBytes;
    var xs, ys := PartBytes(p.parts), PartBytes(q.parts);
    SameCount(p.parts);
    SameCount(q.parts);
    if p.total == 0 {
      assert xs == ys;
    } else {
      HashesAreHashes(sha, xs);
      HashesAreHashes(sha, ys);
      RootBinds(sha, Hashes(sha, xs), Hashes(sha, ys));
      if Hashes(sha, xs) == Hashes(sha, ys) {
        PieceCollisionFound(sha, xs, ys, |xs|);
        assert xs[..|xs|] == xs && ys[..|ys|] == ys;
      }
    }
  }

  lemma SameCount(parts: seq<Option<BlockPart>>)
    ensures |PartBytes(parts)| == |parts|
  {}

  lemma HashesAreHashes(sha: Sha256, pieces: seq<Bytes>)
    requires Digests(sha)
    ensures AllHashes(Hashes(sha, pieces)) && |Hashes(sha, pieces)| == |pieces|
  {
    forall i | 0 <= i < |pieces| ensures |Hashes(sha, pieces)[i]| == HASH_SIZE {
      assert Hashes(sha, pieces)[i] == sha(pieces[i]);
    }
  }

  /** The collision that an accepted part with foreign bytes gives away. */
  function PartCollision(sha: Sha256, data: Bytes, part: BlockPart): Option<Collision>
    requires part.index < PartCount(|data|) && |part.proofPath| == Depth(PartCount(|data|))
  {
    var leaves := Hashes(sha, Chunks(data));
    var above := ProofCollision(sha, leaves, part.index, sha(part.bytes), part.proofPath);
    if Collides(sha, above) then above else Some(Collision(part.bytes, Chunk(data, part.index)))
  }

  /** A part accepted under the header of `data` with a proof of full length is the part of `data`. */
  lemma AcceptedPartIsGenuine(sha: Sha256, data: Bytes, p: Parts, part: BlockPart)
    requires Digests(sha) && data != [] && p.total == |p.parts| == PartCount(|data|) && p.hash == DataHash(sha, data)
    requires part.index < p.total && |part.proofPath| == Depth(p.total)
    requires AddPart(sha, p, part).0 != p
    ensures part.bytes == Chunk(data, part.index) || Collides(sha, PartCollision(sha, data, part))
  {
    hide Root, Chunk, PartCount, Fold, Path, ProofCollision, Depth;
    var leaves := Hashes(sha, Chunks(data));
    HashesAreHashes(sha, Chunks(data));
    assert leaves[part.index] == sha(Chunk(data, part.index));
    ProofSound(sha, leaves, part.index, sha(part.bytes), part.proofPath);
  }

  // ----- Parts with proofs of other lengths -----

  function Leaves(sha: Sha256, data: Bytes): seq<Bytes> { Hashes(sha, Chunks(data)) }

  lemma LeavesOf(sha: Sha256, data: Bytes)
    requires data != []
    ensures |Leaves(sha, data)| == PartCount(|data|) > 0 && DataHash(sha, data) == Root(sha, Leaves(sha, data))
    ensures Digests(sha) ==> AllHashes(Leaves(sha, data))
    ensures forall i :: 0 <= i < PartCount(|data|) ==> Leaves(sha, data)[i] == sha(Chunk(data, i))
  {
    hide Root, Chunk;
    PositivePartCount(data);
    if Digests(sha) { HashesAreHashes(sha, Chunks(data)); }
  }

  /** The two nodes under the root, offered as the part at some index. */
  function ForgedPart(sha: Sha256, data: Bytes, i: nat): BlockPart
    requires PartCount(|data|) >= 2
  {
    BlockPart(i, TopPair(sha, Leaves(sha, data)), [], DataHash(sha, data))
  }

  /** Such a part is accepted and stored in every empty slot of every set of two or more parts. */
  lemma ForgedPartAccepted(sha: Sha256, data: Bytes, p: Parts, i: nat)
    requires Digests(sha) && data != [] && PartCount(|data|) >= 2 && i < PartCount(|data|) && !p.HasPart(i)
    requires p.total == |p.parts| == PartCount(|data|) && p.hash == DataHash(sha, data)
    ensures AddPart(sha, p, ForgedPart(sha, data, i)).0.parts == p.parts[i := Some(ForgedPart(sha, data, i))]
    ensures |Chunk(data, i)| != 2 * HASH_SIZE ==> ForgedPart(sha, data, i).bytes != Chunk(data, i)
  {
    hide Root, PartCount, TopPair, Leaves, DataHash, Concat, Hashes, PartBytes, Chunk;
    LeavesOf(sha, data);
    TopPairHash(sha, Leaves(sha, data));
  }

  /** Every part but the last is full, so only a last part can have the size of two hashes. */
  lemma FullChunk(data: Bytes, i: nat)
    requires i + 1 < PartCount(|data|)
    ensures |Chunk(data, i)| == BLOCK_PART_SIZE
  {}

  /** Parts added one after the other. */
  function AddParts(sha: Sha256, p: Parts, parts: seq<BlockPart>): (r: Parts)
    requires |p.parts| == p.total
    ensures |r.parts| == r.total == p.total && r.hash == p.hash
    decreases |parts|
  {
    if parts == [] then p else AddPart(sha, AddParts(sha, p, parts[..|parts| - 1]), parts[|parts| - 1]).0
  }

  lemma {:induction false} SlotTaken(sha: Sha256, p: Parts, parts: seq<BlockPart>, i: nat)
    requires p.Valid(sha) && p.HasPart(i)
    ensures AddParts(sha, p, parts).Valid(sha) && AddParts(sha, p, parts).HasPart(i)
    ensures AddParts(sha, p, parts).parts[i] == p.parts[i]
    decreases |parts|
  {
    hide Parts.Valid, Verifies, Assemble, Parts.IsComplete;
    TotalIsCount(sha, p);
    if parts != [] {
      var rest, last := parts[..|parts| - 1], parts[|parts| - 1];
      SlotTaken(sha, p, rest, i);
      AddKeepsValid(sha, AddParts(sha, p, rest), last);
      AssembleKeepsParts(sha, AddParts(sha, p, rest), last, i);
    }
  }

  lemma TotalIsCount(sha: Sha256, p: Parts)
    requires p.Valid(sha)
    ensures |p.parts| == p.total
  {}

  lemma AssembleKeepsParts(sha: Sha256, p: Parts, part: BlockPart, i: nat)
    requires |p.parts| == p.total && p.HasPart(i)
    ensures var r := AddPart(sha, p, part).0; r.HasPart(i) && r.parts[i] == p.parts[i]
  {
    hide Verifies, RootOf, Concat, Hashes;
  }

  /**
   * A forged part keeps the genuine one out, and whatever is added later, data is assembled only with a
   * collision, unless the genuine part has the size of two hashes.
   */
  lemma ForgedPartBlocks(sha: Sha256, data: Bytes, p: Parts, i: nat, more: seq<BlockPart>)
    requires Digests(sha) && data != [] && i < PartCount(|data|) && PartCount(|data|) >= 2 && !p.HasPart(i)
    requires |Chunk(data, i)| != 2 * HASH_SIZE
    requires p.Valid(sha) && p.total == PartCount(|data|) && p.hash == DataHash(sha, data)
    ensures var p' := AddPart(sha, p, ForgedPart(sha, data, i)).0;
      && AddPart(sha, p', PartOf(sha, data, i)) == (p', Some(AlreadyHas))
      && (AddParts(sha, p', more).data.Some? ==>
            Collides(sha, PiecesCollision(sha, PartBytes(AddParts(sha, p', more).parts), Chunks(data))))
  {
    hide Root, PartCount, ForgedPart, Chunk, PartOf, DataHash, Concat, PiecesCollision, AddPart, AddParts, Hashes,
      RootOf;
    ForgedPartAccepted(sha, data, p, i);
    var p' := AddPart(sha, p, ForgedPart(sha, data, i)).0;
    AddKeepsValid(sha, p, ForgedPart(sha, data, i));
    GenuinePart(sha, data, p', i);
    SlotTaken(sha, p', more, i);
    var q := AddParts(sha, p', more);
    if q.data.Some? {
      FromDataValid(sha, data);
      PartSetBinding(sha, q, FromData(sha, data));
      assert PartBytes(q.parts)[i] == ForgedPart(sha, data, i).bytes && Chunks(data)[i] == Chunk(data, i);
    }
  }

  /** What a proof that is not too long shows. */
  function ShownBy(sha: Sha256, data: Bytes, part: BlockPart): Shown
    requires data != []
  {
    LeavesOf(sha, data);
    var leaves := Leaves(sha, data);
    LevelRoot(sha, leaves, Depth(|leaves|));
    DepthZero(|LevelAt(sha, leaves, Depth(|leaves|))|);
    Follow(sha, leaves, part.index, sha(part.bytes), part.proofPath, |part.proofPath|, Depth(|leaves|), 0)
  }

  /** The two nodes under the inner node that a short proof leads to. */
  function ShownPair(sha: Sha256, data: Bytes, part: BlockPart): Option<Bytes>
    requires data != []
  {
    match ShownBy(sha, data, part)
    case Clash(_) => None
    case Node(_, d, j) =>
      if d > 0 && 2 * j < |LevelAt(sha, Leaves(sha, data), d - 1)|
      then Some(Children(LevelAt(sha, Leaves(sha, data), d - 1), j)) else None
  }

  /** The collision that an accepted part whose proof is not too long gives away. */
  function LengthCollision(sha: Sha256, data: Bytes, part: BlockPart): Option<Collision>
    requires data != [] && part.index < PartCount(|data|) && |part.proofPath| <= Depth(PartCount(|data|))
  {
    if |part.proofPath| == Depth(PartCount(|data|)) then PartCollision(sha, data, part)
    else if ShownBy(sha, data, part).Clash? then Some(ShownBy(sha, data, part).collision)
    else if ShownPair(sha, data, part).Some? then Some(Collision(part.bytes, ShownPair(sha, data, part).value))
    else None
  }

  /**
   * Of the parts accepted with a proof not longer than the tree is high, the genuine ones are exactly
   * those with a proof of full length and those whose chunk is itself the two nodes the proof leads to,
   * or there is a collision. Only a chunk of the size of two hashes, a last one, can be of that kind.
   */
  lemma GenuineIffFullLength(sha: Sha256, data: Bytes, p: Parts, part: BlockPart)
    requires Digests(sha) && data != [] && p.total == |p.parts| == PartCount(|data|) && p.hash == DataHash(sha, data)
    requires part.index < p.total && |part.proofPath| <= Depth(p.total) && AddPart(sha, p, part).0 != p
    ensures
      || Collides(sha, LengthCollision(sha, data, part))
      || (part.bytes == Chunk(data, part.index) <==>
          |part.proofPath| == Depth(p.total) || ShownPair(sha, data, part) == Some(Chunk(data, part.index)))
    ensures ShownPair(sha, data, part) == Some(Chunk(data, part.index)) ==> |Chunk(data, part.index)| == 2 * HASH_SIZE
  {
    hide Root, Chunk, PartCount, Fold, Path, Depth, Leaves, DataHash, Follow, LevelAt, PartCollision, Children;
    LeavesOf(sha, data);
    var leaves := Leaves(sha, data);
    AcceptedShows(sha, leaves, part.index, sha(part.bytes), part.proofPath);
    var shown := ShownBy(sha, data, part);
    if |part.proofPath| == Depth(p.total) { AcceptedPartIsGenuine(sha, data, p, part); }
    if shown.Node? && shown.depth > 0 {
      ShortProofClash(sha, leaves, part.index, part.bytes, part.proofPath, shown.depth, shown.position);
    }
  }

  /** A value that is an inner node has the digest of two hashes side by side. */
  lemma ShortProofClash(sha: Sha256, leaves: seq<Bytes>, i: nat, bytes: Bytes, path: seq<Bytes>, d: nat, j: nat)
    requires Digests(sha) && AllHashes(leaves) && leaves != [] && d > 0 && j < |LevelAt(sha, leaves, d)|
    requires Fold(sha, sha(bytes), i, path[..0]) == LevelAt(sha, leaves, d)[j]
    ensures 2 * j < |LevelAt(sha, leaves, d - 1)|
    ensures sha(bytes) == sha(Children(LevelAt(sha, leaves, d - 1), j))
    ensures |Children(LevelAt(sha, leaves, d - 1), j)| == 2 * HASH_SIZE
  {
    hide LevelAt;
    LevelAbove(sha, leaves, d - 1);
    LevelHashes(sha, leaves, d - 1);
  }

  /** The bytes that the surplus steps of a too long proof hash to reach a leaf. */
  function SurplusJoin(sha: Sha256, data: Bytes, part: BlockPart): Bytes
    requires data != [] && |part.proofPath| > Depth(|Leaves(sha, data)|)
  {
    var n := |part.proofPath| - Depth(|Leaves(sha, data)|);
    Joined(Halves(part.index, n - 1), Fold(sha, sha(part.bytes), part.index, part.proofPath[..n - 1]),
           part.proofPath[n - 1])
  }

  /**
   * A part accepted with a proof longer than the tree is high gives a collision, or some chunk of the
   * data is itself a digest joined with a sibling, in the way the proof joins them.
   */
  lemma LongProofEmbedded(sha: Sha256, data: Bytes, p: Parts, part: BlockPart) returns (c: Collision, j: nat)
    requires Digests(sha) && data != [] && p.total == |p.parts| == PartCount(|data|) && p.hash == DataHash(sha, data)
    requires |part.proofPath| > Depth(|Leaves(sha, data)|) && AddPart(sha, p, part).0 != p
    ensures Collides(sha, Some(c)) || (j < p.total && Chunk(data, j) == SurplusJoin(sha, data, part))
  {
    hide Root, Chunk, PartCount, Fold, Path, Depth, Leaves, DataHash, Follow, LevelAt;
    LeavesOf(sha, data);
    var leaves := Leaves(sha, data);
    AcceptedShows(sha, leaves, part.index, sha(part.bytes), part.proofPath);
    var shown := Follow(sha, leaves, part.index, sha(part.bytes), part.proofPath, |part.proofPath|, Depth(|leaves|), 0);
    c, j := Collision([], []), 0;
    match shown
    case Clash(clash) => c := clash;
    case Node(n, d, position) =>
      FoldLast(sha, sha(part.bytes), part.index, part.proofPath, n);
      BottomLevel(sha, leaves);
      j := position;
      c := Collision(Chunk(data, j), SurplusJoin(sha, data, part));
  }

  lemma BottomLevel(sha: Sha256, leaves: seq<Bytes>)
    requires leaves != []
    ensures LevelAt(sha, leaves, 0) == leaves
  {}
}
