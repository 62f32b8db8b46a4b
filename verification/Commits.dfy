/**
 * Commit certificates: how a vote set makes one, when verification accepts one, and what two
 * accepted certificates for different values have in common.
 */
module Commits {
  import opened Types
  import opened Validators
  import opened VoteSets

  datatype CommitSig = CommitSig(index: int, timestamp: int, blockHash: Option<Bytes>, signature: Bytes)

  datatype Commit = Commit(height: int, round: int, blockHash: Bytes, signatures: seq<CommitSig>)

  datatype CommitError =
    | HeightMismatch | BlockHashMismatch | NoSignatures | DuplicateSig | UnknownCommitValidator
    | InvalidCommitSignature | InsufficientVotePower

  datatype Verdict = Accepted | Refused(error: CommitError)

  // ----- Making a commit -----

  function SigOf(v: Vote): CommitSig { CommitSig(v.index, v.timestamp, v.blockHash, v.signature) }

  /** The recorded votes for a block among the first `n` validators, in order of index. */
  function CommitSigs(t: Tally, block: Bytes, n: nat): seq<CommitSig> {
    if n == 0 then [] else
      CommitSigs(t, block, n - 1) +
      if n - 1 in t.votes && BlockKey(t.votes[n - 1].blockHash) == Some(block) then [SigOf(t.votes[n - 1])] else []
  }

  function MakeCommit(t: Tally): Option<Commit> {
    if t.vtype != Precommit || t.maj23.None? || t.maj23.value.None? then None else
      var block := t.maj23.value.value;
      Some(Commit(t.height, t.round, block, CommitSigs(t, block, |t.vals.validators|)))
  }

  // ----- Verifying a commit -----

  /** A signature entry for the block. */
  predicate ForBlock(sig: CommitSig, blockHash: Bytes) {
    !IsHashEmpty(sig.blockHash) && sig.blockHash == Some(blockHash)
  }

  /** An entry full verification counts: it carries a signature and names the block. */
  predicate Counts(sig: CommitSig, blockHash: Bytes) {
    sig.signature != [] && ForBlock(sig, blockHash)
  }

  /** The precommit an entry stands for. */
  function VoteOf(commit: Commit, sig: CommitSig, val: Validator): Vote {
    Vote(Precommit, commit.height, commit.round, sig.blockHash, sig.timestamp, val.name, sig.index, sig.signature)
  }

  predicate SigVerifies(verify: Ed25519, vs: ValidatorSet, commit: Commit, sig: CommitSig) {
    && 0 <= sig.index < |vs.validators|
    && VerifySignature(verify, vs.validators[sig.index].publicKey, VoteOf(commit, sig, vs.validators[sig.index]))
  }

  predicate DistinctSigners(commit: Commit) {
    forall i, j :: 0 <= i < j < |commit.signatures| ==> commit.signatures[i].index != commit.signatures[j].index
  }

  /** The validators whose entries full verification counts, among the first `k` entries. */
  ghost function Signers(commit: Commit, blockHash: Bytes, k: nat): set<int>
    requires k <= |commit.signatures|
  {
    set i | 0 <= i < k && Counts(commit.signatures[i], blockHash) :: commit.signatures[i].index
  }

  /** The validators whose entries name the block, among the first `k` entries. */
  ghost function Named(commit: Commit, blockHash: Bytes, k: nat): set<int>
    requires k <= |commit.signatures|
  {
    set i | 0 <= i < k && ForBlock(commit.signatures[i], blockHash) :: commit.signatures[i].index
  }

  /** What a certificate must be for full verification to accept it. */
  ghost predicate Certified(verify: Ed25519, vs: ValidatorSet, blockHash: Bytes, height: int, commit: Commit) {
    && commit.height == height && commit.blockHash == blockHash && commit.signatures != []
    && DistinctSigners(commit)
    && (forall i :: 0 <= i < |commit.signatures| && Counts(commit.signatures[i], blockHash) ==>
          SigVerifies(verify, vs, commit, commit.signatures[i]))
    && IsQuorum(vs, Signers(commit, blockHash, |commit.signatures|))
  }

  /** What light verification asks for: the same without any signature check. */
  ghost predicate LightlyCertified(vs: ValidatorSet, blockHash: Bytes, height: int, commit: Commit) {
    && commit.height == height && commit.blockHash == blockHash
    && DistinctSigners(commit)
    && (forall i :: 0 <= i < |commit.signatures| && ForBlock(commit.signatures[i], blockHash) ==>
          0 <= commit.signatures[i].index < |vs.validators|)
    && IsQuorum(vs, Named(commit, blockHash, |commit.signatures|))
  }

  lemma SignersStep(commit: Commit, blockHash: Bytes, k: nat)
    requires k < |commit.signatures|
    ensures var sig := commit.signatures[k];
      && Signers(commit, blockHash, k + 1) ==
           (if Counts(sig, blockHash) then Signers(commit, blockHash, k) + {sig.index}
            else Signers(commit, blockHash, k))
      && Named(commit, blockHash, k + 1) ==
           (if ForBlock(sig, blockHash) then Named(commit, blockHash, k) + {sig.index} else Named(commit, blockHash, k))
  {
    var sig := commit.signatures[k];
    assert Signers(commit, blockHash, k + 1) ==
      if Counts(sig, blockHash) then Signers(commit, blockHash, k) + {sig.index} else Signers(commit, blockHash, k);
    assert Named(commit, blockHash, k + 1) ==
      if ForBlock(sig, blockHash) then Named(commit, blockHash, k) + {sig.index} else Named(commit, blockHash, k);
  }

  lemma NoSignersYet(vs: ValidatorSet, commit: Commit, blockHash: Bytes)
    ensures PowerOf(vs.validators, Signers(commit, blockHash, 0)) == 0
    ensures PowerOf(vs.validators, Named(commit, blockHash, 0)) == 0
  {
    assert Signers(commit, blockHash, 0) == {} && Named(commit, blockHash, 0) == {};
    PowerOfEmpty(vs.validators);
  }

  method VerifyCommit(verify: Ed25519, vs: ValidatorSet, blockHash: Bytes, height: int, commit: Commit)
    returns (verdict: Verdict)
    requires vs.Valid()
    ensures verdict == Accepted <==> Certified(verify, vs, blockHash, height, commit)
    ensures verdict == Refused(DuplicateSig) ==> !DistinctSigners(commit)
    ensures verdict == Refused(InsufficientVotePower) ==>
      !IsQuorum(vs, Signers(commit, blockHash, |commit.signatures|))
    ensures verdict == Refused(InvalidCommitSignature) || verdict == Refused(UnknownCommitValidator) ==>
      exists i :: 0 <= i < |commit.signatures| && Counts(commit.signatures[i], blockHash)
                  && !SigVerifies(verify, vs, commit, commit.signatures[i])
  {
    if commit.height != height { return Refused(HeightMismatch); }
    if commit.blockHash != blockHash { return Refused(BlockHashMismatch); }
    if |commit.signatures| == 0 { return Refused(NoSignatures); }

    var votingPower, seen := 0, {};
    NoSignersYet(vs, commit, blockHash);
    for k := 0 to |commit.signatures|
      invariant seen == set i | 0 <= i < k :: commit.signatures[i].index
      invariant forall i, j :: 0 <= i < j < k ==> commit.signatures[i].index != commit.signatures[j].index
      invariant forall i :: 0 <= i < k && Counts(commit.signatures[i], blockHash) ==>
        SigVerifies(verify, vs, commit, commit.signatures[i])
      invariant votingPower == PowerOf(vs.validators, Signers(commit, blockHash, k))
    {
      var sig := commit.signatures[k];
      if sig.index in seen { return Refused(DuplicateSig); }
      seen := seen + {sig.index};
      SignersStep(commit, blockHash, k);
      if sig.signature == [] { continue; }
      if IsHashEmpty(sig.blockHash) { continue; }
      if sig.blockHash.value != blockHash { continue; }
      var val := vs.GetByIndex(sig.index);
      if val.None? { return Refused(UnknownCommitValidator); }
      if !VerifySignature(verify, val.value.publicKey, VoteOf(commit, sig, val.value)) {
        return Refused(InvalidCommitSignature);
      }
      PowerOfAdd(vs.validators, Signers(commit, blockHash, k), sig.index);
      votingPower := votingPower + val.value.votingPower;
    }
    if votingPower < vs.TwoThirdsMajority() { return Refused(InsufficientVotePower); }
    return Accepted;
  }

  method VerifyCommitLight(vs: ValidatorSet, blockHash: Bytes, height: int, commit: Commit)
    returns (verdict: Verdict)
    requires vs.Valid()
    ensures verdict == Accepted <==> LightlyCertified(vs, blockHash, height, commit)
    ensures verdict == Refused(DuplicateSig) ==> !DistinctSigners(commit)
    ensures verdict == Refused(InsufficientVotePower) ==>
      !IsQuorum(vs, Named(commit, blockHash, |commit.signatures|))
  {
    if commit.height != height { return Refused(HeightMismatch); }
    if commit.blockHash != blockHash { return Refused(BlockHashMismatch); }

    var votingPower, seen := 0, {};
    NoSignersYet(vs, commit, blockHash);
    for k := 0 to |commit.signatures|
      invariant seen == set i | 0 <= i < k :: commit.signatures[i].index
      invariant forall i, j :: 0 <= i < j < k ==> commit.signatures[i].index != commit.signatures[j].index
      invariant forall i :: 0 <= i < k && ForBlock(commit.signatures[i], blockHash) ==>
        0 <= commit.signatures[i].index < |vs.validators|
      invariant votingPower == PowerOf(vs.validators, Named(commit, blockHash, k))
    {
      var sig := commit.signatures[k];
      if sig.index in seen { return Refused(DuplicateSig); }
      seen := seen + {sig.index};
      SignersStep(commit, blockHash, k);
      if IsHashEmpty(sig.blockHash) { continue; }
      if sig.blockHash.value != blockHash { continue; }
      var val := vs.GetByIndex(sig.index);
      if val.None? { return Refused(UnknownCommitValidator); }
      PowerOfAdd(vs.validators, Named(commit, blockHash, k), sig.index);
      votingPower := votingPower + val.value.votingPower;
    }
    if votingPower < vs.TwoThirdsMajority() { return Refused(InsufficientVotePower); }
    return Accepted;
  }

  /**
   * Full acceptance carries over to light verification exactly when no unsigned entry for the block
   * names an unknown validator: light verification looks such an entry up, full verification skips it.
   */
  lemma FullImpliesLight(verify: Ed25519, vs: ValidatorSet, blockHash: Bytes, height: int, commit: Commit)
    requires vs.Valid() && Certified(verify, vs, blockHash, height, commit)
    ensures LightlyCertified(vs, blockHash, height, commit) <==>
      (forall i :: (0 <= i < |commit.signatures| && ForBlock(commit.signatures[i], blockHash)
                    && commit.signatures[i].signature == []) ==> 0 <= commit.signatures[i].index < |vs.validators|)
  {
    var n := |commit.signatures|;
    PowerOfMonotone(vs.validators, Signers(commit, blockHash, n), Named(commit, blockHash, n));
    assert forall i :: (0 <= i < n && ForBlock(commit.signatures[i], blockHash)
                        && commit.signatures[i].signature != []) ==> Counts(commit.signatures[i], blockHash);
  }

  // ----- The commit a vote set makes is accepted -----

  /** `sigs` lists the recorded votes for a block among the first `n` validators, in order of index. */
  ghost predicate ListsVotes(t: Tally, block: Bytes, n: nat, sigs: seq<CommitSig>) {
    && (forall j :: 0 <= j < |sigs| ==>
          && 0 <= sigs[j].index < n && sigs[j].index in t.votes
          && sigs[j] == SigOf(t.votes[sigs[j].index])
          && BlockKey(sigs[j].blockHash) == Some(block))
    && (forall j, k :: 0 <= j < k < |sigs| ==> sigs[j].index < sigs[k].index)
    && (forall i :: 0 <= i < n && i in t.Voters(Some(block)) ==> SigOf(t.votes[i]) in sigs)
  }

  lemma ListsOneMore(t: Tally, block: Bytes, n: nat, sigs: seq<CommitSig>)
    requires t.Indexed() && ListsVotes(t, block, n, sigs)
    requires n in t.votes && BlockKey(t.votes[n].blockHash) == Some(block)
    ensures ListsVotes(t, block, n + 1, sigs + [SigOf(t.votes[n])])
  {
    hide BlockKey;
    var more := sigs + [SigOf(t.votes[n])];
    assert t.votes[n].index == n;
    assert more[|sigs|] == SigOf(t.votes[n]);
    forall i | 0 <= i < n + 1 && i in t.Voters(Some(block)) ensures SigOf(t.votes[i]) in more {
      if i < n { assert SigOf(t.votes[i]) in sigs; }
    }
  }

  lemma ListsNoMore(t: Tally, block: Bytes, n: nat, sigs: seq<CommitSig>)
    requires ListsVotes(t, block, n, sigs)
    requires !(n in t.votes && BlockKey(t.votes[n].blockHash) == Some(block))
    ensures ListsVotes(t, block, n + 1, sigs)
  {
    hide BlockKey;
  }

  lemma {:induction false} CommitSigsContents(t: Tally, block: Bytes, n: nat)
    requires t.Indexed() && n <= |t.vals.validators|
    ensures ListsVotes(t, block, n, CommitSigs(t, block, n))
  {
    hide BlockKey, ListsVotes, Tally.Indexed;
    if n == 0 {
      ListsNone(t, block);
    } else {
      CommitSigsContents(t, block, n - 1);
      var prev := CommitSigs(t, block, n - 1);
      if n - 1 in t.votes && BlockKey(t.votes[n - 1].blockHash) == Some(block) {
        ListsOneMore(t, block, n - 1, prev);
      } else {
        assert prev + [] == prev;
        ListsNoMore(t, block, n - 1, prev);
      }
    }
  }

  lemma ListsNone(t: Tally, block: Bytes)
    ensures ListsVotes(t, block, 0, [])
  {}

  /** Every listed vote is counted and its signature verifies again. */
  lemma ListedSigsVerify(verify: Ed25519, t: Tally, c: Commit)
    requires t.Indexed() && t.Genuine(verify) && t.vtype == Precommit
    requires c.height == t.height && c.round == t.round
    requires ListsVotes(t, c.blockHash, |t.vals.validators|, c.signatures)
    ensures forall i :: 0 <= i < |c.signatures| ==>
      Counts(c.signatures[i], c.blockHash) && SigVerifies(verify, t.vals, c, c.signatures[i])
  {
    forall i | 0 <= i < |c.signatures|
      ensures Counts(c.signatures[i], c.blockHash) && SigVerifies(verify, t.vals, c, c.signatures[i])
    {
      var sig := c.signatures[i];
      assert VoteOf(c, sig, t.vals.validators[sig.index]) == t.votes[sig.index];
    }
  }

  /** The signers of a listing commit include every voter for the block. */
  lemma ListedSigners(t: Tally, c: Commit)
    requires t.Indexed() && t.vals.Valid()
    requires ListsVotes(t, c.blockHash, |t.vals.validators|, c.signatures)
    requires forall i :: 0 <= i < |c.signatures| ==> Counts(c.signatures[i], c.blockHash)
    requires IsQuorum(t.vals, t.Voters(Some(c.blockHash)))
    ensures IsQuorum(t.vals, Signers(c, c.blockHash, |c.signatures|))
    ensures c.signatures != []
  {
    var n := |c.signatures|;
    var voters, signers := t.Voters(Some(c.blockHash)), Signers(c, c.blockHash, n);
    forall i | i in voters ensures i in signers {
      assert SigOf(t.votes[i]) in c.signatures;
    }
    PowerOfMonotone(t.vals.validators, voters, signers);
    if n == 0 {
      assert signers == {};
      PowerOfEmpty(t.vals.validators);
      QuorumIsLeastAboveTwoThirds(t.vals);
    }
  }

  /** A precommit set with a majority for a block makes a commit that both verifications accept. */
  lemma MakeCommitVerifies(verify: Ed25519, t: Tally)
    requires t.Valid() && t.Genuine(verify) && t.vtype == Precommit
    requires t.maj23.Some? && t.maj23.value.Some?
    ensures MakeCommit(t).Some?
    ensures var c := MakeCommit(t).value;
      && c.height == t.height && c.round == t.round && t.maj23 == Some(Some(c.blockHash))
      && Certified(verify, t.vals, c.blockHash, t.height, c)
      && LightlyCertified(t.vals, c.blockHash, t.height, c)
  {
    var block := t.maj23.value.value;
    var c := MakeCommit(t).value;
    assert IsQuorum(t.vals, t.Voters(Some(block)));
    CommitSigsContents(t, block, |t.vals.validators|);
    ListedSigsVerify(verify, t, c);
    ListedSigners(t, c);
    FullImpliesLight(verify, t.vals, block, t.height, c);
  }

  lemma {:induction false} SameVotesSameSigs(a: Tally, b: Tally, block: Bytes, n: nat)
    requires a.votes == b.votes
    ensures CommitSigs(a, block, n) == CommitSigs(b, block, n)
  {
    if n > 0 { SameVotesSameSigs(a, b, block, n - 1); }
  }

  /** The commit does not depend on the order in which the votes arrived. */
  lemma CommitOrderIndependence(verify: Ed25519, t: Tally, xs: seq<Vote>, ys: seq<Vote>)
    requires t.Valid() && t.votes == map[]
    requires ConflictFree(xs) && forall i :: 0 <= i < |xs| ==> Acceptable(verify, t, xs[i])
    requires forall v :: v in xs <==> v in ys
    ensures MakeCommit(AddAll(verify, t, xs)) == MakeCommit(AddAll(verify, t, ys))
  {
    OrderIndependence(verify, t, xs, ys);
    SameElementsSameFacts(verify, t, xs, ys);
    AddAllRecords(verify, t, xs);
    AddAllRecords(verify, t, ys);
    var a, b := AddAll(verify, t, xs), AddAll(verify, t, ys);
    if MakeCommit(a).Some? {
      SameVotesSameSigs(a, b, a.maj23.value.value, |t.vals.validators|);
    }
  }

  // ----- What two certificates share -----

  /** Validator `i` produced a verified signature on a vote of this kind for this value. */
  ghost predicate Signed(verify: Ed25519, vs: ValidatorSet, vtype: VoteType, height: int, round: int,
                         key: Option<Bytes>, i: int, v: Vote)
  {
    && 0 <= i < |vs.validators|
    && v.index == i && v.vtype == vtype && v.height == height && v.round == round
    && BlockKey(v.blockHash) == key && v.validator == vs.validators[i].name
    && VerifySignature(verify, vs.validators[i].publicKey, v)
  }

  /** A quorum of validators signed a vote of this kind for this value. */
  ghost predicate Certificate(verify: Ed25519, vs: ValidatorSet, vtype: VoteType, height: int, round: int,
                              key: Option<Bytes>, votes: set<Vote>)
  {
    && IsQuorum(vs, set v | v in votes :: v.index)
    && forall v :: v in votes ==> Signed(verify, vs, vtype, height, round, key, v.index, v)
  }

  /** An accepted commit is a certificate for its block. */
  lemma CommitIsCertificate(verify: Ed25519, vs: ValidatorSet, blockHash: Bytes, height: int, commit: Commit)
    returns (votes: set<Vote>)
    requires vs.Valid() && Certified(verify, vs, blockHash, height, commit)
    ensures Certificate(verify, vs, Precommit, height, commit.round, BlockKey(Some(blockHash)), votes)
  {
    var n := |commit.signatures|;
    votes := set i | 0 <= i < n && Counts(commit.signatures[i], blockHash)
                     && 0 <= commit.signatures[i].index < |vs.validators|
      :: VoteOf(commit, commit.signatures[i], vs.validators[commit.signatures[i].index]);
    var who := set v | v in votes :: v.index;
    forall k | k in Signers(commit, blockHash, n) ensures k in who {
      var i :| 0 <= i < n && Counts(commit.signatures[i], blockHash) && commit.signatures[i].index == k;
      assert SigVerifies(verify, vs, commit, commit.signatures[i]);
      assert VoteOf(commit, commit.signatures[i], vs.validators[k]) in votes;
    }
    PowerOfMonotone(vs.validators, Signers(commit, blockHash, n), who);
  }

  /** A recorded majority is a certificate for its value. */
  lemma MajorityIsCertificate(verify: Ed25519, t: Tally) returns (votes: set<Vote>)
    requires t.Valid() && t.Genuine(verify) && t.maj23.Some?
    ensures Certificate(verify, t.vals, t.vtype, t.height, t.round, t.maj23.value, votes)
    ensures forall v :: v in votes ==> v in t.votes.Values
  {
    hide EntryExact, PowerOf, BlockKey, VerifySignature;
    var key := t.maj23.value;
    assert t.maj23 == Some(key);
    votes := set i | i in t.Voters(key) :: t.votes[i];
    var who := set v | v in votes :: v.index;
    forall i | i in t.Voters(key) ensures i in who { assert t.votes[i] in votes; }
    PowerOfMonotone(t.vals.validators, t.Voters(key), who);
  }

  /** The validators that signed in both certificates. */
  ghost function SignedBoth(a: set<Vote>, b: set<Vote>): set<int> {
    (set v | v in a :: v.index) * (set v | v in b :: v.index)
  }

  /**
   * Two certificates of one kind for different values at one height and round expose validators
   * holding more than a third of the power, each of which signed two conflicting votes.
   */
  lemma CertificatesIntersect(verify: Ed25519, vs: ValidatorSet, vtype: VoteType, height: int, round: int,
                              key1: Option<Bytes>, a: set<Vote>, key2: Option<Bytes>, b: set<Vote>)
    requires vs.Valid()
    requires Certificate(verify, vs, vtype, height, round, key1, a)
    requires Certificate(verify, vs, vtype, height, round, key2, b)
    requires key1 != key2
    ensures 3 * PowerOf(vs.validators, SignedBoth(a, b)) > vs.totalPower
    ensures forall i :: i in SignedBoth(a, b) ==>
      exists v, w :: v in a && w in b && v.blockHash != w.blockHash
                     && Signed(verify, vs, vtype, height, round, key1, i, v)
                     && Signed(verify, vs, vtype, height, round, key2, i, w)
  {
    QuorumIntersection(vs, set v | v in a :: v.index, set v | v in b :: v.index);
    forall i | i in SignedBoth(a, b)
      ensures exists v, w :: v in a && w in b && v.blockHash != w.blockHash
                             && Signed(verify, vs, vtype, height, round, key1, i, v)
                             && Signed(verify, vs, vtype, height, round, key2, i, w)
    {
      var v :| v in a && v.index == i;
      var w :| w in b && w.index == i;
      assert Signed(verify, vs, vtype, height, round, key1, i, v);
      assert Signed(verify, vs, vtype, height, round, key2, i, w);
    }
  }
}
