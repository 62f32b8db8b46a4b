/**
 * Merkle trees over part hashes: the tree builder with its proofs, the separate root computation and
 * the proof verifier, proved against one definition of root and path. SHA-256 is any function to 32
 * bytes, and what would need it to be injective yields two colliding inputs instead.
 */
module Merkle {
  import opened Types

  const HASH_SIZE := 32

  type Sha256 = Bytes -> Bytes

  /** Every digest has 32 bytes. */
  ghost predicate Digests(sha: Sha256) {
    forall x :: |sha(x)| == HASH_SIZE
  }

  ghost predicate AllHashes(level: seq<Bytes>) {
    forall i :: 0 <= i < |level| ==> |level[i]| == HASH_SIZE
  }

  // ----- The tree -----

  /** The other child of a node's parent; the last node of an odd level is its own sibling. */
  function Sibling(level: seq<Bytes>, i: nat): Bytes
    requires i < |level|
  {
    if i % 2 == 1 then level[i - 1] else if i + 1 < |level| then level[i + 1] else level[i]
  }

  /** The children of parent `i` side by side. */
  function Children(level: seq<Bytes>, i: nat): Bytes
    requires 2 * i < |level|
  {
    level[2 * i] + Sibling(level, 2 * i)
  }

  function NextLevel(sha: Sha256, level: seq<Bytes>): (next: seq<Bytes>)
    ensures |next| == (|level| + 1) / 2
  {
    seq((|level| + 1) / 2, i requires 0 <= i < (|level| + 1) / 2 => sha(Children(level, i)))
  }

  function Root(sha: Sha256, level: seq<Bytes>): Bytes
    requires level != []
    decreases |level|
  {
    if |level| == 1 then level[0] else Root(sha, NextLevel(sha, level))
  }

  /** The siblings on the way from a node to the root. */
  function Path(sha: Sha256, level: seq<Bytes>, i: nat): (path: seq<Bytes>)
    requires i < |level|
    ensures |path| == Depth(|level|)
    decreases |level|
  {
    if |level| == 1 then [] else [Sibling(level, i)] + Path(sha, NextLevel(sha, level), i / 2)
  }

  function Depth(n: nat): nat
    requires n > 0
  {
    if n == 1 then 0 else 1 + Depth((n + 1) / 2)
  }

  lemma NextHashes(sha: Sha256, level: seq<Bytes>)
    requires Digests(sha)
    ensures AllHashes(NextLevel(sha, level))
  {
    var next := NextLevel(sha, level);
    forall i | 0 <= i < |next| ensures |next[i]| == HASH_SIZE {
      assert next[i] == sha(Children(level, i));
    }
  }

  // ----- Proofs -----

  function Joined(i: nat, current: Bytes, sibling: Bytes): Bytes {
    if i % 2 == 0 then current + sibling else sibling + current
  }

  function Fold(sha: Sha256, current: Bytes, i: nat, path: seq<Bytes>): Bytes
    decreases |path|
  {
    if path == [] then current else Fold(sha, sha(Joined(i, current, path[0])), i / 2, path[1..])
  }

  predicate Verifies(sha: Sha256, leaf: Bytes, i: nat, path: seq<Bytes>, root: Bytes) {
    Fold(sha, leaf, i, path) == root
  }

  /** Every proof the builder makes verifies at its index. */
  lemma {:induction false} ProofsVerify(sha: Sha256, level: seq<Bytes>, i: nat)
    requires i < |level|
    ensures Verifies(sha, level[i], i, Path(sha, level, i), Root(sha, level))
    decreases |level|
  {
    if |level| > 1 {
      var next := NextLevel(sha, level);
      ProofsVerify(sha, next, i / 2);
      assert next[i / 2] == sha(Children(level, i / 2));
      assert Children(level, i / 2) == Joined(i, level[i], Sibling(level, i));
      assert Path(sha, level, i)[1..] == Path(sha, next, i / 2);
    }
  }

  // ----- Collisions -----

  datatype Collision = Collision(left: Bytes, right: Bytes)

  /** Two different inputs with one digest. */
  predicate Collides(sha: Sha256, c: Option<Collision>) {
    c.Some? && c.value.left != c.value.right && sha(c.value.left) == sha(c.value.right)
  }

  /** The collision that an accepted proof for a wrong leaf gives away. */
  function ProofCollision(sha: Sha256, level: seq<Bytes>, i: nat, current: Bytes, path: seq<Bytes>): Option<Collision>
    requires i < |level| && |path| == Depth(|level|)
    decreases |level|
  {
    if |level| == 1 then None else
      var joined := Joined(i, current, path[0]);
      var above := ProofCollision(sha, NextLevel(sha, level), i / 2, sha(joined), path[1..]);
      if Collides(sha, above) then above else Some(Collision(joined, Children(level, i / 2)))
  }

  /** A proof of full length accepted at an index is for the leaf at that index, or gives a collision. */
  lemma {:induction false} ProofSound(sha: Sha256, level: seq<Bytes>, i: nat, current: Bytes, path: seq<Bytes>)
    requires Digests(sha) && AllHashes(level) && i < |level|
    requires |current| == HASH_SIZE && |path| == Depth(|level|)
    requires Verifies(sha, current, i, path, Root(sha, level))
    ensures current == level[i] || Collides(sha, ProofCollision(sha, level, i, current, path))
    decreases |level|
  {
    if |level| > 1 {
      var joined := Joined(i, current, path[0]);
      NextHashes(sha, level);
      ProofSound(sha, NextLevel(sha, level), i / 2, sha(joined), path[1..]);
      SplitJoined(level, i, current, path[0]);
      assert NextLevel(sha, level)[i / 2] == sha(Children(level, i / 2));
    }
  }

  lemma SplitJoined(level: seq<Bytes>, i: nat, current: Bytes, sibling: Bytes)
    requires AllHashes(level) && i < |level| && |current| == HASH_SIZE
    ensures Joined(i, current, sibling) == Children(level, i / 2) ==> current == level[i]
  {
    var pair, joined := Children(level, i / 2), Joined(i, current, sibling);
    assert pair[..HASH_SIZE] == level[2 * (i / 2)] && pair[HASH_SIZE..] == Sibling(level, 2 * (i / 2));
    if joined == pair {
      assert |sibling| == HASH_SIZE;
      assert joined[..HASH_SIZE] == if i % 2 == 0 then current else sibling;
      assert joined[HASH_SIZE..] == if i % 2 == 0 then sibling else current;
    }
  }

  // ----- Proofs of any length -----

  /** The level `d` steps above the leaves. */
  function LevelAt(sha: Sha256, level: seq<Bytes>, d: nat): (r: seq<Bytes>)
    requires level != []
    ensures r != []
    decreases d
  {
    if d == 0 then level else LevelAt(sha, NextLevel(sha, level), d - 1)
  }

  lemma {:induction false} LevelAbove(sha: Sha256, level: seq<Bytes>, d: nat)
    requires level != []
    ensures LevelAt(sha, level, d + 1) == NextLevel(sha, LevelAt(sha, level, d))
    decreases d
  {
    if d > 0 { LevelAbove(sha, NextLevel(sha, level), d - 1); }
  }

  lemma {:induction false} LevelHashes(sha: Sha256, level: seq<Bytes>, d: nat)
    requires Digests(sha) && AllHashes(level) && level != []
    ensures AllHashes(LevelAt(sha, level, d))
    decreases d
  {
    if d > 0 {
      NextHashes(sha, level);
      LevelHashes(sha, NextLevel(sha, level), d - 1);
    }
  }

  /** Every level up to the top has the same root, and the top is the root alone. */
  lemma {:induction false} LevelRoot(sha: Sha256, level: seq<Bytes>, d: nat)
    requires level != [] && d <= Depth(|level|)
    ensures Root(sha, LevelAt(sha, level, d)) == Root(sha, level)
    ensures Depth(|LevelAt(sha, level, d)|) == Depth(|level|) - d
    decreases d
  {
    if d > 0 { LevelRoot(sha, NextLevel(sha, level), d - 1); }
  }

  /** The path from any inner node is accepted as if the node were a leaf. */
  lemma InnerNodeAccepted(sha: Sha256, level: seq<Bytes>, d: nat, j: nat)
    requires level != [] && d <= Depth(|level|) && j < |LevelAt(sha, level, d)|
    ensures Verifies(sha, LevelAt(sha, level, d)[j], j, Path(sha, LevelAt(sha, level, d), j), Root(sha, level))
  {
    LevelRoot(sha, level, d);
    ProofsVerify(sha, LevelAt(sha, level, d), j);
  }

  /** The two nodes under the root. */
  function TopPair(sha: Sha256, level: seq<Bytes>): Bytes
    requires |level| >= 2
  {
    Children(LevelAt(sha, level, Depth(|level|) - 1), 0)
  }

  lemma TopPairHash(sha: Sha256, level: seq<Bytes>)
    requires |level| >= 2
    ensures sha(TopPair(sha, level)) == Root(sha, level)
    ensures Digests(sha) && AllHashes(level) ==> |TopPair(sha, level)| == 2 * HASH_SIZE
  {
    var d := Depth(|level|) - 1;
    LevelRoot(sha, level, d);
    var below := LevelAt(sha, level, d);
    assert Root(sha, below) == NextLevel(sha, below)[0] == sha(Children(below, 0));
    if Digests(sha) && AllHashes(level) { LevelHashes(sha, level, d); }
  }

  /** An index after `k` steps up. */
  function Halves(i: nat, k: nat): nat { if k == 0 then i else Halves(i / 2, k - 1) }

  lemma {:induction false} FoldLast(sha: Sha256, current: Bytes, i: nat, path: seq<Bytes>, n: nat)
    requires 0 < n <= |path|
    ensures Fold(sha, current, i, path[..n])
      == sha(Joined(Halves(i, n - 1), Fold(sha, current, i, path[..n - 1]), path[n - 1]))
    decreases n
  {
    if n == 1 {
      assert path[..1][1..] == path[..0];
    } else {
      var next := sha(Joined(i, current, path[0]));
      FoldLast(sha, next, i / 2, path[1..], n - 1);
      assert path[..n][1..] == path[1..][..n - 1] && path[..n - 1][1..] == path[1..][..n - 2];
    }
  }

  /** What a fold that ends in a node shows: a collision, or the node that an earlier fold equals. */
  datatype Shown = Clash(collision: Collision) | Node(steps: nat, depth: nat, position: nat)

  /** The child of a node that a fold with this index goes through. */
  function Child(size: nat, j: nat, i: nat): nat
    requires 2 * j < size
  {
    if i % 2 == 1 && 2 * j + 1 < size then 2 * j + 1 else 2 * j
  }

  /** Follows a fold of `n` steps down from node `j` at depth `d` until steps or levels run out. */
  function Follow(sha: Sha256, level: seq<Bytes>, i: nat, current: Bytes, path: seq<Bytes>, n: nat,
          d: nat, j: nat): Shown
    requires level != [] && n <= |path| && j < |LevelAt(sha, level, d)|
    decreases n
  {
    if n == 0 || d == 0 then Node(n, d, j) else
      LevelAbove(sha, level, d - 1);
      var below := LevelAt(sha, level, d - 1);
      var joined := Joined(Halves(i, n - 1), Fold(sha, current, i, path[..n - 1]), path[n - 1]);
      if joined != Children(below, j) then Clash(Collision(joined, Children(below, j)))
      else Follow(sha, level, i, current, path, n - 1, d - 1, Child(|below|, j, Halves(i, n - 1)))
  }

  /** What is shown holds: the inputs collide, or the fold of the remaining steps is the node. */
  ghost predicate ShownHolds(sha: Sha256, level: seq<Bytes>, i: nat, current: Bytes, path: seq<Bytes>, n: nat, d: nat,
          shown: Shown) {
    match shown
    case Clash(c) => Collides(sha, Some(c))
    case Node(m, depth, j) =>
      && m <= n <= |path| && n - m == d - depth && (m == 0 || depth == 0)
      && level != [] && j < |LevelAt(sha, level, depth)|
      && Fold(sha, current, i, path[..m]) == LevelAt(sha, level, depth)[j]
  }

  lemma {:induction false} FollowSound(sha: Sha256, level: seq<Bytes>, i: nat, current: Bytes, path: seq<Bytes>,
          n: nat, d: nat, j: nat)
    requires Digests(sha) && AllHashes(level) && level != [] && n <= |path| && |current| == HASH_SIZE
    requires j < |LevelAt(sha, level, d)| && Fold(sha, current, i, path[..n]) == LevelAt(sha, level, d)[j]
    ensures ShownHolds(sha, level, i, current, path, n, d, Follow(sha, level, i, current, path, n, d, j))
    decreases n
  {
    if n > 0 && d > 0 {
      LevelAbove(sha, level, d - 1);
      LevelHashes(sha, level, d - 1);
      FoldLast(sha, current, i, path, n);
      var below, h := LevelAt(sha, level, d - 1), Halves(i, n - 1);
      var y := Fold(sha, current, i, path[..n - 1]);
      var joined := Joined(h, y, path[n - 1]);
      assert LevelAt(sha, level, d)[j] == sha(Children(below, j));
      if joined == Children(below, j) {
        FoldIsHash(sha, current, i, path[..n - 1]);
        ChildShown(below, j, h, y, path[n - 1]);
        FollowSound(sha, level, i, current, path, n - 1, d - 1, Child(|below|, j, h));
      }
    }
  }

  lemma {:induction false} FoldIsHash(sha: Sha256, current: Bytes, i: nat, path: seq<Bytes>)
    requires Digests(sha) && |current| == HASH_SIZE
    ensures |Fold(sha, current, i, path)| == HASH_SIZE
    decreases |path|
  {
    if path != [] {
      assert |sha(Joined(i, current, path[0]))| == HASH_SIZE;
      FoldIsHash(sha, sha(Joined(i, current, path[0])), i / 2, path[1..]);
    }
  }

  lemma ChildShown(below: seq<Bytes>, j: nat, i: nat, y: Bytes, sibling: Bytes)
    requires AllHashes(below) && 2 * j < |below| && |y| == HASH_SIZE && Joined(i, y, sibling) == Children(below, j)
    ensures y == below[Child(|below|, j, i)]
  {
    var pair := Children(below, j);
    assert |sibling| == HASH_SIZE;
    assert pair[..HASH_SIZE] == below[2 * j] && pair[HASH_SIZE..] == Sibling(below, 2 * j);
    assert Joined(i, y, sibling)[..HASH_SIZE] == if i % 2 == 0 then y else sibling;
    assert Joined(i, y, sibling)[HASH_SIZE..] == if i % 2 == 0 then sibling else y;
  }

  /**
   * A proof of any length that is accepted shows a collision, or a node: the given value itself when the
   * proof is not too long, and else the fold of the surplus steps, which is then a leaf.
   */
  lemma AcceptedShows(sha: Sha256, level: seq<Bytes>, i: nat, current: Bytes, path: seq<Bytes>)
    requires Digests(sha) && AllHashes(level) && level != [] && |current| == HASH_SIZE
    requires Verifies(sha, current, i, path, Root(sha, level))
    ensures |LevelAt(sha, level, Depth(|level|))| == 1
    ensures ShownHolds(sha, level, i, current, path, |path|, Depth(|level|),
                       Follow(sha, level, i, current, path, |path|, Depth(|level|), 0))
  {
    hide Follow, LevelAt;
    LevelRoot(sha, level, Depth(|level|));
    assert path[..|path|] == path;
    DepthZero(|LevelAt(sha, level, Depth(|level|))|);
    FollowSound(sha, level, i, current, path, |path|, Depth(|level|), 0);
  }

  lemma DepthZero(n: nat)
    requires n > 0
    ensures Depth(n) == 0 <==> n == 1
  {}

  // ----- Binding -----

  /** The first parent among `k` whose children differ, as a collision. */
  function LevelCollision(xs: seq<Bytes>, ys: seq<Bytes>, k: nat): Option<Collision>
    requires |xs| == |ys| && 2 * k <= |xs| + 1
  {
    if k == 0 then None
    else if LevelCollision(xs, ys, k - 1).Some? then LevelCollision(xs, ys, k - 1)
    else if Children(xs, k - 1) != Children(ys, k - 1) then Some(Collision(Children(xs, k - 1), Children(ys, k - 1)))
    else None
  }

  function RootCollision(sha: Sha256, xs: seq<Bytes>, ys: seq<Bytes>): Option<Collision>
    requires |xs| == |ys| > 0
    decreases |xs|
  {
    if |xs| == 1 then None else
      var above := RootCollision(sha, NextLevel(sha, xs), NextLevel(sha, ys));
      if Collides(sha, above) then above else LevelCollision(xs, ys, (|xs| + 1) / 2)
  }

  lemma {:induction false} LevelCollisionFound(sha: Sha256, xs: seq<Bytes>, ys: seq<Bytes>, k: nat)
    requires |xs| == |ys| && 2 * k <= |xs| + 1 && NextLevel(sha, xs) == NextLevel(sha, ys)
    ensures Collides(sha, LevelCollision(xs, ys, k)) || forall i :: 0 <= i < k ==> Children(xs, i) == Children(ys, i)
    ensures LevelCollision(xs, ys, k).Some? ==> Collides(sha, LevelCollision(xs, ys, k))
  {
    if k > 0 {
      LevelCollisionFound(sha, xs, ys, k - 1);
      assert NextLevel(sha, xs)[k - 1] == NextLevel(sha, ys)[k - 1];
    }
  }

  lemma SameChildren(xs: seq<Bytes>, ys: seq<Bytes>)
    requires |xs| == |ys| && AllHashes(xs) && AllHashes(ys)
    requires forall i :: 0 <= i < (|xs| + 1) / 2 ==> Children(xs, i) == Children(ys, i)
    ensures xs == ys
  {
    forall i | 0 <= i < |xs| ensures xs[i] == ys[i] {
      SplitJoined(ys, i, xs[i], Sibling(xs, i));
      assert Children(xs, i / 2) == Joined(i, xs[i], Sibling(xs, i));
    }
  }

  /** Lists of the same length with the same root are the same list, or give a collision. */
  lemma {:induction false} RootBinds(sha: Sha256, xs: seq<Bytes>, ys: seq<Bytes>)
    requires Digests(sha) && AllHashes(xs) && AllHashes(ys) && |xs| == |ys| > 0
    requires Root(sha, xs) == Root(sha, ys)
    ensures xs == ys || Collides(sha, RootCollision(sha, xs, ys))
    decreases |xs|
  {
    if |xs| > 1 {
      NextHashes(sha, xs);
      NextHashes(sha, ys);
      RootBinds(sha, NextLevel(sha, xs), NextLevel(sha, ys));
      if NextLevel(sha, xs) == NextLevel(sha, ys) {
        LevelCollisionFound(sha, xs, ys, (|xs| + 1) / 2);
        if forall i :: 0 <= i < (|xs| + 1) / 2 ==> Children(xs, i) == Children(ys, i) { SameChildren(xs, ys); }
      }
    }
  }

  // ----- The loops -----

  function EmptyHash(): Bytes { seq(HASH_SIZE, _ => 0) }

  function RootOf(sha: Sha256, hashes: seq<Bytes>): Bytes {
    if hashes == [] then EmptyHash() else Root(sha, hashes)
  }

  method ComputeMerkleRoot(sha: Sha256, hashes: seq<Bytes>) returns (root: Bytes)
    ensures root == RootOf(sha, hashes)
  {
    if |hashes| == 0 { return EmptyHash(); }
    if |hashes| == 1 { return hashes[0]; }
    var level := hashes;
    while |level| > 1
      invariant level != [] && Root(sha, level) == Root(sha, hashes)
      decreases |level|
    {
      var next, i := [], 0;
      while i < |level|
        invariant i % 2 == 0 && 0 <= i <= |level| + 1 && |next| == i / 2
        invariant forall j :: 0 <= j < |next| ==> next[j] == sha(Children(level, j))
      {
        var combined := level[i] + if i + 1 < |level| then level[i + 1] else level[i];
        assert combined == Children(level, i / 2);
        next := next + [sha(combined)];
        i := i + 2;
      }
      assert next == NextLevel(sha, level);
      level := next;
    }
    root := level[0];
  }

  method VerifyMerkleProof(sha: Sha256, partHash: Bytes, index: nat, proofPath: seq<Bytes>, root: Bytes)
    returns (ok: bool)
    ensures ok <==> Verifies(sha, partHash, index, proofPath, root)
  {
    if |proofPath| == 0 { return partHash == root; }
    var current, idx := partHash, index;
    for k := 0 to |proofPath|
      invariant Fold(sha, current, idx, proofPath[k..]) == Fold(sha, partHash, index, proofPath)
    {
      var combined := if idx % 2 == 0 then current + proofPath[k] else proofPath[k] + current;
      assert proofPath[k..][1..] == proofPath[k + 1..];
      current := sha(combined);
      idx := idx / 2;
    }
    ok := current == root;
  }

  /** Appends a sibling to the proofs of the leaves under a node. */
  method AppendAll(proofs: array<seq<Bytes>>, leaves: seq<nat>, sibling: Bytes)
    requires forall k :: 0 <= k < |leaves| ==> leaves[k] < proofs.Length
    requires NoneTwice(leaves)
    modifies proofs
    ensures forall l :: 0 <= l < proofs.Length ==> proofs[l] == old(proofs[l]) + if l in leaves then [sibling] else []
  {
    for k := 0 to |leaves|
      invariant forall l :: 0 <= l < proofs.Length ==>
        proofs[l] == old(proofs[l]) + if l in leaves[..k] then [sibling] else []
    {
      proofs[leaves[k]] := proofs[leaves[k]] + [sibling];
    }
  }

  ghost predicate NoneTwice(xs: seq<nat>) {
    forall j, k :: 0 <= j < k < |xs| ==> xs[j] != xs[k]
  }

  /** `xs` lists the leaves whose position is node `m`. */
  ghost predicate Lists(xs: seq<nat>, position: seq<nat>, m: nat) {
    && NoneTwice(xs)
    && (forall j :: 0 <= j < |xs| ==> xs[j] < |position| && position[xs[j]] == m)
    && (forall l :: 0 <= l < |position| && position[l] == m ==> l in xs)
  }

  /** Leaf `l` is under node `position[l]`, and `indices` lists the leaves under each node. */
  ghost predicate Tracks(indices: seq<seq<nat>>, position: seq<nat>) {
    && (forall l :: 0 <= l < |position| ==> position[l] < |indices|)
    && (forall m :: 0 <= m < |indices| ==> Lists(indices[m], position, m))
  }

  /** What is left of every proof is the path from the node the leaf is under. */
  ghost predicate ProofsSoFar(sha: Sha256, leaves: seq<Bytes>, level: seq<Bytes>, proofs: seq<seq<Bytes>>,
          position: seq<nat>) {
    && |proofs| == |position| == |leaves|
    && forall l :: 0 <= l < |leaves| ==>
         position[l] < |level| && proofs[l] + Path(sha, level, position[l]) == Path(sha, leaves, l)
  }

  function Halved(position: seq<nat>): seq<nat> {
    seq(|position|, l requires 0 <= l < |position| => position[l] / 2)
  }

  function Merged(indices: seq<seq<nat>>, m: nat): seq<nat>
    requires 2 * m < |indices|
  {
    indices[2 * m] + if 2 * m + 1 < |indices| then indices[2 * m + 1] else []
  }

  lemma ListsNone(position: seq<nat>, m: nat)
    ensures (forall l :: 0 <= l < |position| ==> position[l] < m) ==> Lists([], position, m)
  {}

  lemma MergedTracks(indices: seq<seq<nat>>, position: seq<nat>, merged: seq<seq<nat>>)
    requires Tracks(indices, position) && |merged| == (|indices| + 1) / 2
    requires forall m :: 0 <= m < |merged| ==> merged[m] == Merged(indices, m)
    ensures Tracks(merged, Halved(position))
  {
    ListsNone(position, |indices|);
    forall m | 0 <= m < |merged| ensures Lists(merged[m], Halved(position), m) {
      MergedLists(indices[2 * m], if 2 * m + 1 < |indices| then indices[2 * m + 1] else [], position, m);
    }
  }

  lemma MergedLists(left: seq<nat>, right: seq<nat>, position: seq<nat>, m: nat)
    requires Lists(left, position, 2 * m) && Lists(right, position, 2 * m + 1)
    ensures Lists(left + right, Halved(position), m)
  {
    forall l | 0 <= l < |position| && Halved(position)[l] == m ensures l in left + right {
      assert position[l] == 2 * m || position[l] == 2 * m + 1;
    }
  }

  /** The leaves under a pair of nodes get the respective other node. */
  method AppendSiblings(proofs: array<seq<Bytes>>, level: seq<Bytes>, left: seq<nat>, right: seq<nat>, i: nat,
          ghost position: seq<nat>)
    requires i % 2 == 0 && i < |level| && proofs.Length == |position|
    requires Lists(left, position, i) && Lists(right, position, i + 1)
    requires forall l :: 0 <= l < |position| ==> position[l] < |level|
    modifies proofs
    ensures forall l :: 0 <= l < proofs.Length ==>
      proofs[l] == old(proofs[l])
        + if position[l] == i || position[l] == i + 1 then [Sibling(level, position[l])] else []
  {
    AppendAll(proofs, left, if i + 1 < |level| then level[i + 1] else level[i]);
    AppendAll(proofs, right, level[i]);
  }

  /** One level of the tree: hash the pairs and append siblings to the proofs of all leaves. */
  method BuildLevel(sha: Sha256, level: seq<Bytes>, indices: seq<seq<nat>>, proofs: array<seq<Bytes>>,
          ghost position: seq<nat>)
    returns (next: seq<Bytes>, nextIndices: seq<seq<nat>>)
    requires |level| > 1 && |indices| == |level| && Tracks(indices, position) && proofs.Length == |position|
    modifies proofs
    ensures next == NextLevel(sha, level) && |nextIndices| == |next| && Tracks(nextIndices, Halved(position))
    ensures forall l :: 0 <= l < proofs.Length ==> proofs[l] == old(proofs[l]) + [Sibling(level, position[l])]
  {
    hide Lists;
    next, nextIndices := [], [];
    ListsNone(position, |level|);
    var i := 0;
    while i < |level|
      invariant i % 2 == 0 && 0 <= i <= |level| + 1 && |next| == |nextIndices| == i / 2
      invariant forall j :: 0 <= j < |next| ==> next[j] == sha(Children(level, j))
      invariant forall m :: 0 <= m < |nextIndices| ==> nextIndices[m] == Merged(indices, m)
      invariant forall l :: 0 <= l < proofs.Length ==>
        proofs[l] == old(proofs[l]) + if position[l] < i then [Sibling(level, position[l])] else []
    {
      var left, leftIndices := level[i], indices[i];
      var right, rightIndices := level[i], [];
      if i + 1 < |level| {
        right, rightIndices := level[i + 1], indices[i + 1];
      }
      AppendSiblings(proofs, level, leftIndices, rightIndices, i, position);
      assert left + right == Children(level, i / 2);
      next := next + [sha(left + right)];
      nextIndices := nextIndices + [leftIndices + rightIndices];
      i := i + 2;
    }
    assert next == NextLevel(sha, level);
    MergedTracks(indices, position, nextIndices);
  }

  lemma ProofsAdvance(sha: Sha256, leaves: seq<Bytes>, level: seq<Bytes>, proofs: seq<seq<Bytes>>, position: seq<nat>,
          longer: seq<seq<Bytes>>)
    requires |level| > 1 && ProofsSoFar(sha, leaves, level, proofs, position) && |longer| == |proofs|
    requires forall l :: 0 <= l < |longer| ==> longer[l] == proofs[l] + [Sibling(level, position[l])]
    ensures ProofsSoFar(sha, leaves, NextLevel(sha, level), longer, Halved(position))
  {
    var next := NextLevel(sha, level);
    forall l | 0 <= l < |leaves|
      ensures Halved(position)[l] < |next| && longer[l] + Path(sha, next, Halved(position)[l]) == Path(sha, leaves, l)
    {
      assert Path(sha, level, position[l]) == [Sibling(level, position[l])] + Path(sha, next, position[l] / 2);
      assert proofs[l] + ([Sibling(level, position[l])] + Path(sha, next, position[l] / 2))
        == longer[l] + Path(sha, next, position[l] / 2);
    }
  }

  /** The root, and for every leaf the path from it to the root. */
  method BuildMerkleTreeWithProofs(sha: Sha256, leaves: seq<Bytes>) returns (root: Bytes, proofs: seq<seq<Bytes>>)
    ensures root == RootOf(sha, leaves) && |proofs| == |leaves|
    ensures forall i :: 0 <= i < |leaves| ==> proofs[i] == Path(sha, leaves, i)
  {
    var n := |leaves|;
    if n == 0 { return EmptyHash(), []; }
    if n == 1 { return leaves[0], [[]]; }
    var paths := new seq<Bytes>[n](_ => []);
    var level := leaves;
    var indices: seq<seq<nat>> := seq(n, i requires 0 <= i < n => [i]);
    ghost var position: seq<nat> := seq(n, i requires 0 <= i < n => i);
    while |level| > 1
      invariant level != [] && Root(sha, level) == Root(sha, leaves) && |indices| == |level|
      invariant |position| == n && Tracks(indices, position) && ProofsSoFar(sha, leaves, level, paths[..], position)
      decreases |level|
    {
      ghost var before := paths[..];
      var nextLevel, nextIndices := BuildLevel(sha, level, indices, paths, position);
      ProofsAdvance(sha, leaves, level, before, position, paths[..]);
      level, indices, position := nextLevel, nextIndices, Halved(position);
    }
    root, proofs := level[0], paths[..];
  }
}
