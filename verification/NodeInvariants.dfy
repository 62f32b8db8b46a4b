/**
 * What every transition of a node keeps. The invariant speaks about the votes `known` to exist: those
 * seen from outside together with the node's own. Locks and votes are justified by quorums of them.
 */
module NodeInvariants {
  import opened Types
  import opened Validators
  import opened VoteSets
  import opened Commits
  import opened Node
  import Privval

  type Schedule = int -> ValidatorSet

  ghost predicate GoodSchedule(vals: Schedule) {
    forall h :: vals(h).Valid()
  }

  // ----- Quorums of known votes -----

  predicate IsVoteFor(v: Vote, vtype: VoteType, height: int, round: int, key: Option<Bytes>) {
    v.vtype == vtype && v.height == height && v.round == round && BlockKey(v.blockHash) == key
  }

  /** The validators with a known vote of this kind for this value. */
  ghost function Backers(known: set<Vote>, vtype: VoteType, height: int, round: int, key: Option<Bytes>): set<int> {
    set v | v in known && IsVoteFor(v, vtype, height, round, key) :: v.index
  }

  ghost predicate Quorum(vals: Schedule, known: set<Vote>, vtype: VoteType, height: int, round: int,
          key: Option<Bytes>) {
    IsQuorum(vals(height), Backers(known, vtype, height, round, key))
  }

  lemma QuorumMonotone(vals: Schedule, known: set<Vote>, more: set<Vote>,
                       vtype: VoteType, height: int, round: int, key: Option<Bytes>)
    requires GoodSchedule(vals) && known <= more && Quorum(vals, known, vtype, height, round, key)
    ensures Quorum(vals, more, vtype, height, round, key)
  {
    assert vals(height).Valid();
    PowerOfMonotone(vals(height).validators, Backers(known, vtype, height, round, key),
                    Backers(more, vtype, height, round, key));
  }

  /** A recorded majority is a quorum of known votes. */
  lemma MajorityIsQuorum(vals: Schedule, known: set<Vote>, t: Tally)
    requires t.Valid() && t.vals == vals(t.height) && t.maj23.Some?
    requires forall i :: i in t.votes ==> t.votes[i] in known
    ensures Quorum(vals, known, t.vtype, t.height, t.round, t.maj23.value)
  {
    var key := t.maj23.value;
    assert t.maj23 == Some(key);
    var backers := Backers(known, t.vtype, t.height, t.round, key);
    forall i | i in t.Voters(key) ensures i in backers {
      var v := t.votes[i];
      assert v in known && IsVoteFor(v, t.vtype, t.height, t.round, key);
    }
    PowerOfMonotone(t.vals.validators, t.Voters(key), backers);
  }

  /** The POL votes of a proposal that verify at its height are known. */
  ghost predicate POLVotesKnown(cfg: Config, known: set<Vote>, vals: ValidatorSet, p: Proposal) {
    forall v :: v in p.polVotes && v.height == p.height && Authentic(cfg.verifyVote, vals, v) ==> v in known
  }

  /** An accepted proof of lock is a quorum of known prevotes. */
  lemma POLIsQuorum(cfg: Config, known: set<Vote>, vals: ValidatorSet, p: Proposal)
    requires vals == cfg.vals(p.height) && vals.Valid() && POLAccepted(cfg, vals, p)
    requires POLVotesKnown(cfg, known, vals, p)
    ensures Quorum(cfg.vals, known, Prevote, p.height, p.polRound, BlockKey(Some(BlockHash(cfg, p.block))))
  {
    var key := BlockKey(Some(BlockHash(cfg, p.block)));
    var backers := Backers(known, Prevote, p.height, p.polRound, key);
    forall k | k in POLVoters(p) ensures k in backers {
      var i :| 0 <= i < |p.polVotes| && p.polVotes[i].index == k;
      assert POLVoteAccepted(cfg, vals, p, p.polVotes[i]);
      assert IsVoteFor(p.polVotes[i], Prevote, p.height, p.polRound, key);
    }
    PowerOfMonotone(vals.validators, POLVoters(p), backers);
  }

  /** Between `round` and `bound`, both excluded, some round has a prevote quorum against `block`. */
  ghost predicate Overtaken(vals: Schedule, known: set<Vote>, height: int, round: int, block: Bytes, bound: int) {
    exists k, key :: round < k < bound && key != Some(block) && Quorum(vals, known, Prevote, height, k, key)
  }

  lemma OvertakenMonotone(vals: Schedule, known: set<Vote>, more: set<Vote>,
                          height: int, round: int, block: Bytes, bound: int, bound': int)
    requires GoodSchedule(vals) && known <= more && bound <= bound'
    requires Overtaken(vals, known, height, round, block, bound)
    ensures Overtaken(vals, more, height, round, block, bound')
  {
    var k, key :| round < k < bound && key != Some(block) && Quorum(vals, known, Prevote, height, k, key);
    QuorumMonotone(vals, known, more, Prevote, height, k, key);
  }

  // ----- History of a node -----

  predicate PrecommitFor(v: Vote, height: int, block: Bytes) {
    v.vtype == Precommit && v.height == height && BlockKey(v.blockHash) == Some(block)
  }

  predicate PrevoteForOther(v: Vote, height: int, block: Bytes) {
    v.vtype == Prevote && v.height == height && BlockKey(v.blockHash).Some? && BlockKey(v.blockHash) != Some(block)
  }

  /** Every precommit for a block rests on a prevote quorum for it in its round. */
  ghost predicate PrecommitsBacked(vals: Schedule, known: set<Vote>, sent: set<Vote>) {
    forall w, b :: w in sent && PrecommitFor(w, w.height, b) ==>
      Quorum(vals, known, Prevote, w.height, w.round, Some(b))
  }

  /** A prevote against an earlier precommit comes only after the precommit was overtaken. */
  ghost predicate PrevotesFaithful(vals: Schedule, known: set<Vote>, sent: set<Vote>) {
    forall v, w, b ::
      w in sent && v in sent && PrecommitFor(w, w.height, b) && PrevoteForOther(v, w.height, b) && w.round < v.round ==>
      Overtaken(vals, known, w.height, w.round, b, v.round)
  }

  function VoteStep(v: Vote): int {
    if v.vtype == Prevote then Privval.STEP_PREVOTE else Privval.STEP_PRECOMMIT
  }

  /** The vote is made in the name of the node's own validator. */
  ghost predicate OwnVote(cfg: Config, v: Vote) {
    && (v.vtype == Prevote || v.vtype == Precommit) && v.round >= 0
    && cfg.me.Some? && FindKey(cfg.vals(v.height).validators, cfg.me.value) == Some(v.index)
  }

  /** The signer has reached the position of the vote, and holds it when it is the last one. */
  ghost predicate SignerCovers(last: Privval.LastSignState<Message>, v: Vote) {
    && !Privval.HRSBefore(last.height, last.round, last.step, v.height, v.round, VoteStep(v))
    && ((last.height, last.round, last.step) == (v.height, v.round, VoteStep(v)) ==>
          last.signBytesHash == Some(VoteMessage(v.(signature := []))) && last.signature == v.signature)
  }

  ghost predicate SamePlace(v: Vote, w: Vote) {
    v.vtype == w.vtype && v.height == w.height && v.round == w.round
  }

  ghost predicate SignerInv(cfg: Config, s: NodeState) {
    && (forall v :: v in s.sent ==> OwnVote(cfg, v) && SignerCovers(s.signer, v))
    && (forall v, w :: v in s.sent && w in s.sent && SamePlace(v, w) ==> v == w)
    && (s.signer.signBytesHash.Some? && s.signer.signBytesHash.value.VoteMessage? ==>
          s.signer.signBytesHash.value.vote.(signature := s.signer.signature) in s.sent)
    && (s.signer.signBytesHash.None? ==> s.signer.step == Privval.STEP_PROPOSAL)
  }

  ghost predicate AppliedInv(cfg: Config, known: set<Vote>, s: NodeState) {
    && (forall i :: 0 <= i < |s.applied| ==>
        AppliedGood(cfg, known, s.applied[i]) && s.applied[i].height == s.start + i)
    && (s.halt == Running ==> s.height == s.start + |s.applied|)
  }

  /** An applied block hashes to a certificate that verifies, and its precommits are known. */
  ghost predicate AppliedGood(cfg: Config, known: set<Vote>, a: Applied) {
    && a.commit.round >= 0
    && Certified(cfg.verifyVote, cfg.vals(a.height), BlockHash(cfg, a.block), a.height, a.commit)
    && Quorum(cfg.vals, known, Precommit, a.height, a.commit.round, Some(BlockHash(cfg, a.block)))
  }

  /** Stopping for want of a commit takes a precommit quorum in a negative round. */
  ghost predicate HaltInv(vals: Schedule, known: set<Vote>, s: NodeState) {
    s.halt == NoCommitFound ==>
      exists r, b :: r < 0 && Quorum(vals, known, Precommit, s.height, r, Some(b))
  }

  // ----- State of a running node -----

  /** Votes are kept for the current height and its validators, and own votes are not from the future. */
  ghost predicate Consistent(cfg: Config, known: set<Vote>, s: NodeState) {
    && s.vals == cfg.vals(s.height) && s.round >= 0 && s.step != CommitStep
    && s.votes.height == s.height && s.votes.vals == s.vals
    && s.votes.Valid(cfg.verifyVote) && s.votes.Within(known)
    && (forall v :: v in s.sent ==> v.height < s.height || (v.height == s.height && v.round <= s.round))
  }

  /** The accepted proposal is for the current round, and its valid POL votes are known. */
  ghost predicate ProposalInv(cfg: Config, known: set<Vote>, s: NodeState) {
    && (s.proposal.None? ==> s.proposalBlock.None?)
    && (s.proposal.Some? ==>
          var p := s.proposal.value;
          && p.height == s.height && p.round == s.round && s.proposalBlock == Some(p.block)
          && POLVotesKnown(cfg, known, s.vals, p))
  }

  /** The recorded prevote majority of a round. */
  ghost predicate HasMajority(s: NodeState, round: int, key: Option<Bytes>) {
    round in s.votes.prevotes && s.votes.prevotes[round].maj23 == Some(key)
  }

  /** A lock, and a valid block, is the recorded prevote majority of its round. */
  ghost predicate LockJustified(cfg: Config, s: NodeState) {
    && (s.lockedBlock.Some? ==>
          0 <= s.lockedRound <= s.round && HasMajority(s, s.lockedRound, Some(BlockHash(cfg, s.lockedBlock.value))))
    && (s.lockedBlock.None? ==> s.lockedRound == -1)
    && (s.validBlock.Some? ==>
          0 <= s.validRound <= s.round && HasMajority(s, s.validRound, Some(BlockHash(cfg, s.validBlock.value))))
    && (s.validBlock.None? ==> s.validRound == -1)
  }

  /** Own precommits for a block of this height follow the recorded majority of their round. */
  ghost predicate PrecommitsRecorded(s: NodeState) {
    forall w, b :: w in s.sent && PrecommitFor(w, s.height, b) ==> HasMajority(s, w.round, Some(b))
  }

  ghost predicate LockedOn(cfg: Config, s: NodeState, block: Bytes, since: int) {
    s.lockedBlock.Some? && BlockHash(cfg, s.lockedBlock.value) == block && s.lockedRound >= since
  }

  /** A precommit for a block keeps the node locked on it until it is overtaken before `bound`. */
  ghost predicate LockHeld(cfg: Config, known: set<Vote>, s: NodeState, bound: int) {
    forall w, b :: w in s.sent && PrecommitFor(w, s.height, b) ==>
      LockedOn(cfg, s, b, w.round) || Overtaken(cfg.vals, known, s.height, w.round, b, bound)
  }

  predicate SignedPrecommit(s: NodeState) {
    !Privval.HRSBefore(s.signer.height, s.signer.round, s.signer.step, s.height, s.round, Privval.STEP_PRECOMMIT)
  }

  /** The first round whose prevotes cannot have moved the lock yet. */
  function Bound(s: NodeState): int {
    if SignedPrecommit(s) then s.round + 1 else s.round
  }

  ghost predicate Past(cfg: Config, known: set<Vote>, s: NodeState) {
    && PrecommitsBacked(cfg.vals, known, s.sent)
    && PrevotesFaithful(cfg.vals, known, s.sent)
    && SignerInv(cfg, s)
    && AppliedInv(cfg, known, s)
    && HaltInv(cfg.vals, known, s)
  }

  ghost predicate Present(cfg: Config, known: set<Vote>, s: NodeState, bound: int) {
    && Consistent(cfg, known, s)
    && ProposalInv(cfg, known, s)
    && LockJustified(cfg, s)
    && PrecommitsRecorded(s)
    && LockHeld(cfg, known, s, bound)
  }

  ghost predicate NodeInv(cfg: Config, known: set<Vote>, s: NodeState) {
    Past(cfg, known, s) && (s.halt == Running ==> Present(cfg, known, s, Bound(s)))
  }

  /** Progress of a node: height and round never go back, and its records only grow. */
  ghost predicate Advances(s: NodeState, s': NodeState) {
    && (s.height < s'.height || (s.height == s'.height && s.round <= s'.round))
    && s.sent <= s'.sent && s.applied <= s'.applied && s.start == s'.start
  }

  // ----- Knowing more votes -----

  lemma PastMonotone(cfg: Config, known: set<Vote>, more: set<Vote>, s: NodeState)
    requires GoodSchedule(cfg.vals) && known <= more && Past(cfg, known, s)
    ensures Past(cfg, more, s)
  {
    hide Quorum, Overtaken, SignerInv, Certified, PrecommitFor, PrevoteForOther;
    forall w, b | w in s.sent && PrecommitFor(w, w.height, b)
      ensures Quorum(cfg.vals, more, Prevote, w.height, w.round, Some(b))
    {
      QuorumMonotone(cfg.vals, known, more, Prevote, w.height, w.round, Some(b));
    }
    forall v, w, b | w in s.sent && v in s.sent && PrecommitFor(w, w.height, b) && PrevoteForOther(v, w.height, b)
      && w.round < v.round
      ensures Overtaken(cfg.vals, more, w.height, w.round, b, v.round)
    {
      OvertakenMonotone(cfg.vals, known, more, w.height, w.round, b, v.round, v.round);
    }
    forall i | 0 <= i < |s.applied| ensures AppliedGood(cfg, more, s.applied[i]) {
      var a := s.applied[i];
      QuorumMonotone(cfg.vals, known, more, Precommit, a.height, a.commit.round, Some(BlockHash(cfg, a.block)));
    }
    if s.halt == NoCommitFound {
      var r, b :| r < 0 && Quorum(cfg.vals, known, Precommit, s.height, r, Some(b));
      QuorumMonotone(cfg.vals, known, more, Precommit, s.height, r, Some(b));
    }
  }

  lemma LockHeldMonotone(cfg: Config, known: set<Vote>, more: set<Vote>, s: NodeState, bound: int, bound': int)
    requires GoodSchedule(cfg.vals) && known <= more && bound <= bound' && LockHeld(cfg, known, s, bound)
    ensures LockHeld(cfg, more, s, bound')
  {
    hide Quorum, Overtaken, LockedOn, PrecommitFor;
    forall w, b | w in s.sent && PrecommitFor(w, s.height, b)
      ensures LockedOn(cfg, s, b, w.round) || Overtaken(cfg.vals, more, s.height, w.round, b, bound')
    {
      if !LockedOn(cfg, s, b, w.round) {
        OvertakenMonotone(cfg.vals, known, more, s.height, w.round, b, bound, bound');
      }
    }
  }

  lemma PresentMonotone(cfg: Config, known: set<Vote>, more: set<Vote>, s: NodeState, bound: int, bound': int)
    requires GoodSchedule(cfg.vals) && known <= more && bound <= bound' && Present(cfg, known, s, bound)
    ensures Present(cfg, more, s, bound')
  {
    hide HeightVotes.Valid, LockHeld, LockJustified, PrecommitsRecorded, Authentic;
    LockHeldMonotone(cfg, known, more, s, bound, bound');
    assert s.votes.Within(more);
  }

  lemma NodeInvMonotone(cfg: Config, known: set<Vote>, more: set<Vote>, s: NodeState)
    requires GoodSchedule(cfg.vals) && known <= more && NodeInv(cfg, known, s)
    ensures NodeInv(cfg, more, s)
  {
    hide Past, Present;
    PastMonotone(cfg, known, more, s);
    if s.halt == Running { PresentMonotone(cfg, known, more, s, Bound(s), Bound(s)); }
  }
}
