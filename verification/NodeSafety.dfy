/** Every transition of a node, with the cascade it starts, keeps the node's invariant. */
module NodeSafety {
  import opened Types
  import opened VoteSets
  import opened Commits
  import opened Node
  import opened NodeInvariants
  import opened CastSafety
  import Privval
  import Rotation

  /** The invariant with the node's own votes counted among the known ones. */
  ghost predicate Safe(cfg: Config, others: set<Vote>, s: NodeState) {
    NodeInv(cfg, others + s.sent, s)
  }

  /** A transition that ends well. */
  ghost predicate SafeStep(cfg: Config, others: set<Vote>, s: NodeState, s': NodeState) {
    Safe(cfg, others, s') && Advances(s, s')
  }

  /** The past depends on the records of a node only. */
  ghost predicate SameRecords(s: NodeState, s1: NodeState) {
    && s1.sent == s.sent && s1.signer == s.signer && s1.applied == s.applied && s1.start == s.start
    && s1.halt == s.halt && s1.height == s.height
  }

  lemma PastFrame(cfg: Config, known: set<Vote>, s: NodeState, s1: NodeState)
    requires Past(cfg, known, s) && SameRecords(s, s1)
    ensures Past(cfg, known, s1)
  {
    hide PrecommitsBacked, PrevotesFaithful, Quorum, AppliedGood, OwnVote, SignerCovers;
  }

  // ----- Deciding a prevote -----

  /** The lock given up for a proof of lock was overtaken by it. */
  lemma UnlockOvertakes(cfg: Config, known: set<Vote>, s: NodeState, w: Vote, b: Bytes)
    requires GoodSchedule(cfg.vals) && Consistent(cfg, known, s) && ProposalInv(cfg, known, s)
    requires s.lockedBlock.Some? && s.proposalBlock.Some? && CanUnlock(cfg, s, s.proposal)
    requires BlockHash(cfg, s.proposalBlock.value) != BlockHash(cfg, s.lockedBlock.value)
    requires LockedOn(cfg, s, b, w.round)
    ensures Overtaken(cfg.vals, known, s.height, w.round, b, s.round)
  {
    hide HeightVotes.Valid, HeightVotes.Within, Quorum;
    var p := s.proposal.value;
    POLIsQuorum(cfg, known, s.vals, p);
    var key := BlockKey(Some(BlockHash(cfg, p.block)));
    assert w.round < p.polRound < s.round && key != Some(b);
  }

  lemma PrevoteDecision(cfg: Config, known: set<Vote>, s: NodeState)
    requires GoodSchedule(cfg.vals) && Present(cfg, known, s, Bound(s))
    ensures var (hash, unlock) := DecidePrevote(cfg, s);
      var s1 := (if unlock then Unlocked(s) else s).(step := PrevoteStep);
      Present(cfg, known, s1, Bound(s1)) && PrevoteJustified(cfg, known, s1, hash)
  {
    hide HeightVotes.Valid, HeightVotes.Within, Overtaken, POLAccepted, Authentic;
    var (hash, unlock) := DecidePrevote(cfg, s);
    var s1 := (if unlock then Unlocked(s) else s).(step := PrevoteStep);
    forall w, b | w in s.sent && PrecommitFor(w, s.height, b)
      ensures LockedOn(cfg, s1, b, w.round) || Overtaken(cfg.vals, known, s.height, w.round, b, Bound(s))
      ensures BlockKey(hash).Some? && BlockKey(hash) != Some(b) ==>
        Overtaken(cfg.vals, known, s.height, w.round, b, Bound(s))
    {
      if unlock && LockedOn(cfg, s, b, w.round) {
        UnlockOvertakes(cfg, known, s, w, b);
        OvertakenMonotone(cfg.vals, known, known, s.height, w.round, b, s.round, Bound(s));
      }
    }
  }

  // ----- Deciding a precommit -----

  /** A prevote majority of this round against a locked block overtakes every precommit for it. */
  lemma MajorityOvertakes(cfg: Config, known: set<Vote>, s: NodeState, key: Option<Bytes>, w: Vote, b: Bytes)
    requires Consistent(cfg, known, s) && PrecommitsRecorded(s)
    requires HasMajority(s, s.round, key) && key != Some(b)
    requires w in s.sent && PrecommitFor(w, s.height, b)
    ensures Overtaken(cfg.vals, known, s.height, w.round, b, s.round + 1)
  {
    hide Tally.Valid, Tally.Genuine, Quorum;
    var t := s.votes.prevotes[s.round];
    assert s.votes.Holds(cfg.verifyVote, t, Prevote, s.round);
    MajorityIsQuorum(cfg.vals, known, t);
    assert w.round <= s.round;
    assert w.round != s.round by { assert HasMajority(s, w.round, Some(b)); }
  }

  lemma PrecommitDecision(cfg: Config, known: set<Vote>, s: NodeState)
    requires GoodSchedule(cfg.vals) && Present(cfg, known, s, Bound(s)) && s.step == PrecommitStep
    ensures var (hash, s1) := DecidePrecommit(cfg, s);
      && Present(cfg, known, s1, s.round + 1) && PrecommitJustified(cfg, s1, hash)
      && SameRecords(s, s1) && s1.round == s.round && s1.step == s.step
  {
    hide HeightVotes.Valid, HeightVotes.Within, Overtaken, Authentic;
    PresentMonotone(cfg, known, known, s, Bound(s), s.round + 1);
    var (hash, s1) := DecidePrecommit(cfg, s);
    var prevotes := s.votes.Prevotes(s.round);
    if prevotes.Some? && prevotes.value.maj23.Some? {
      var key := prevotes.value.maj23.value;
      assert HasMajority(s, s.round, key);
      if key.None? || s1.lockedBlock != s.lockedBlock || s1.lockedRound != s.lockedRound {
        forall w, b | w in s.sent && PrecommitFor(w, s.height, b)
          ensures LockedOn(cfg, s1, b, w.round) || Overtaken(cfg.vals, known, s.height, w.round, b, s.round + 1)
        {
          if key != Some(b) { MajorityOvertakes(cfg, known, s, key, w, b); }
        }
      }
    }
  }

  // ----- Committing -----

  lemma {:induction false} CommitRoundFinds(precommits: map<int, Tally>, round: int, r0: int)
    requires r0 <= round && r0 in precommits && precommits[r0].maj23.Some? && precommits[r0].maj23.value.Some?
    requires MakeCommit(precommits[r0]).Some?
    ensures var r := CommitRound(precommits, round);
      && (r0 >= 0 ==> r.Some?)
      && (r.Some? ==>
            && 0 <= r.value <= round && r.value in precommits && precommits[r.value].maj23.Some?
            && precommits[r.value].maj23.value.Some? && MakeCommit(precommits[r.value]).Some?)
    decreases round - r0
  {
    hide MakeCommit;
    if round >= 0 {
      if r0 <= round - 1 {
        CommitRoundFinds(precommits, round - 1, r0);
      }
    }
  }

  /** A block with the hash of a recorded commit is certified. */
  lemma CommitApplies(cfg: Config, known: set<Vote>, s: NodeState, round: int, block: Block)
    requires Consistent(cfg, known, s) && 0 <= round && round in s.votes.precommits
    requires s.votes.precommits[round].maj23.Some? && s.votes.precommits[round].maj23.value.Some?
    requires MakeCommit(s.votes.precommits[round]).Some?
    requires BlockHash(cfg, block) == MakeCommit(s.votes.precommits[round]).value.blockHash
    ensures AppliedGood(cfg, known, Applied(s.height, block, MakeCommit(s.votes.precommits[round]).value))
  {
    hide Tally.Valid, Tally.Genuine, Quorum, Certified, MakeCommit;
    var t := s.votes.precommits[round];
    assert s.votes.Holds(cfg.verifyVote, t, Precommit, round);
    MakeCommitVerifies(cfg.verifyVote, t);
    MajorityIsQuorum(cfg.vals, known, t);
  }

  /** The start of a height: no votes, no lock, and all own votes from earlier heights. */
  lemma FreshHeight(cfg: Config, known: set<Vote>, s: NodeState)
    requires GoodSchedule(cfg.vals)
    requires s.vals == cfg.vals(s.height) && s.votes == NoVotes(s.height, s.vals) && s.round == 0
      && s.step != CommitStep
    requires s.proposal.None? && s.proposalBlock.None? && s.lockedBlock.None? && s.lockedRound == -1
    requires s.validBlock.None? && s.validRound == -1
    requires forall v :: v in s.sent ==> v.height < s.height
    ensures Present(cfg, known, s, Bound(s))
  {
    assert s.vals.Valid();
  }

  lemma FinalizeSafe(cfg: Config, env: Env, known: set<Vote>, s: NodeState, commit: Commit)
    requires GoodSchedule(cfg.vals) && s.halt == Running && Past(cfg, known, s)
    requires forall v :: v in s.sent ==> v.height <= s.height
    requires forall block :: BlockHash(cfg, block) == commit.blockHash ==>
      AppliedGood(cfg, known, Applied(s.height, block, commit))
    ensures var s' := FinalizeCommit(cfg, env, s, s.height, commit);
      NodeInv(cfg, known, s') && Advances(s, s') && s'.sent == s.sent
  {
    hide PrecommitsBacked, PrevotesFaithful, AppliedGood, OwnVote, SignerCovers, Present;
    var s' := FinalizeCommit(cfg, env, s, s.height, commit);
    if s'.halt == Running { FreshHeight(cfg, known, s'); }
  }

  lemma EnterCommitSafe(cfg: Config, env: Env, others: set<Vote>, s: NodeState, r0: int)
    requires GoodSchedule(cfg.vals) && s.halt == Running
    requires Past(cfg, others + s.sent, s) && Consistent(cfg, others + s.sent, s)
    requires r0 <= s.round && r0 in s.votes.precommits
    requires s.votes.precommits[r0].maj23.Some? && s.votes.precommits[r0].maj23.value.Some?
    ensures SafeStep(cfg, others, s, EnterCommit(cfg, env, s, s.height))
  {
    hide PrecommitsBacked, PrevotesFaithful, AppliedGood, SignerInv, Present, FinalizeCommit, Tally.Valid,
      Tally.Genuine, CommitRound, Quorum;
    var known, s1 := others + s.sent, s.(step := CommitStep);
    var t := s.votes.precommits[r0];
    assert s.votes.Holds(cfg.verifyVote, t, Precommit, r0);
    MakeCommitVerifies(cfg.verifyVote, t);
    CommitRoundFinds(s.votes.precommits, s.round, r0);
    MajorityIsQuorum(cfg.vals, known, t);
    PastFrame(cfg, known, s, s1);
    var round := CommitRound(s.votes.precommits, s.round);
    if round.Some? {
      var commit := MakeCommit(s.votes.precommits[round.value]).value;
      forall block | BlockHash(cfg, block) == commit.blockHash
        ensures AppliedGood(cfg, known, Applied(s.height, block, commit))
      {
        CommitApplies(cfg, known, s, round.value, block);
      }
      FinalizeSafe(cfg, env, known, s1, commit);
    } else {
      NoCommitSafe(cfg, known, s1, r0, t.maj23.value.value);
    }
  }

  lemma NoCommitSafe(cfg: Config, known: set<Vote>, s: NodeState, round: int, b: Bytes)
    requires s.halt == Running && Past(cfg, known, s)
    requires round < 0 && Quorum(cfg.vals, known, Precommit, s.height, round, Some(b))
    ensures NodeInv(cfg, known, s.(halt := NoCommitFound))
  {
    hide PrecommitsBacked, PrevotesFaithful, AppliedGood, SignerInv, Present, Quorum;
    SignerFrame(cfg, s, s.(halt := NoCommitFound));
  }

  // ----- Proposing -----

  /** The POL votes of an own proposal are recorded votes. */
  lemma OwnProposalKnown(cfg: Config, env: Env, known: set<Vote>, s: NodeState, block: Block)
    requires Consistent(cfg, known, s)
    ensures forall i :: 0 <= i < |OwnProposal(env, s, block).polVotes| ==>
      OwnProposal(env, s, block).polVotes[i] in known
  {
    hide HeightVotes.Valid;
    var prevotes := s.votes.Prevotes(s.validRound);
    if prevotes.Some? { RecordedVotesKnown(prevotes.value, |s.vals.validators|, known); }
  }

  lemma {:induction false} RecordedVotesKnown(t: Tally, n: nat, known: set<Vote>)
    requires forall i :: i in t.votes ==> t.votes[i] in known
    ensures forall v :: v in SortedVotes(t, n) ==> v in known
  {
    if n > 0 { RecordedVotesKnown(t, n - 1, known); }
  }

  /** Signing a proposal moves the signer forward or leaves it. */
  lemma SignedProposal(cfg: Config, env: Env, known: set<Vote>, s: NodeState, p: Proposal)
    requires SignerInv(cfg, s) && Sign(cfg, s.signer, ProposalRequest(cfg, p)).Some?
    ensures var s1 := s.(signer := Sign(cfg, s.signer, ProposalRequest(cfg, p)).value.1);
      SignerInv(cfg, s1) && Bound(s) <= Bound(s1)
  {
    hide OwnVote;
    var req := ProposalRequest(cfg, p);
    Privval.CheckHRSMeaning(s.signer, req.height, req.round, req.step);
    var s1 := s.(signer := Sign(cfg, s.signer, req).value.1);
    forall v | v in s.sent ensures SignerCovers(s1.signer, v) { assert SignerCovers(s.signer, v); }
  }

  lemma ProposeSafe(cfg: Config, env: Env, known: set<Vote>, s: NodeState, block: Block)
    requires GoodSchedule(cfg.vals) && s.halt == Running && NodeInv(cfg, known, s)
    requires Sign(cfg, s.signer, ProposalRequest(cfg, OwnProposal(env, s, block))).Some?
    ensures var p := OwnProposal(env, s, block);
      var signed := Sign(cfg, s.signer, ProposalRequest(cfg, p)).value;
      var s1 := s.(signer := signed.1, proposal := Some(p.(signature := signed.0)), proposalBlock := Some(block));
      NodeInv(cfg, known, s1)
  {
    hide PrecommitsBacked, PrevotesFaithful, AppliedGood, SignerInv, Overtaken, HeightVotes.Valid, HeightVotes.Within,
      Sign, Authentic;
    var p := OwnProposal(env, s, block);
    SignedProposal(cfg, env, known, s, p);
    OwnProposalKnown(cfg, env, known, s, block);
    var signed := Sign(cfg, s.signer, ProposalRequest(cfg, p)).value;
    var s1 := s.(signer := signed.1, proposal := Some(p.(signature := signed.0)), proposalBlock := Some(block));
    SignerFrame(cfg, s.(signer := signed.1), s1);
    LockHeldMonotone(cfg, known, known, s, Bound(s), Bound(s1));
  }

  lemma SignerFrame(cfg: Config, s: NodeState, s1: NodeState)
    requires SignerInv(cfg, s) && s1.sent == s.sent && s1.signer == s.signer
    ensures SignerInv(cfg, s1)
  {}

  // ----- The cascade -----

  lemma EnterNewRoundSafe(cfg: Config, env: Env, others: set<Vote>, s: NodeState, height: int, round: int)
    requires GoodSchedule(cfg.vals) && s.halt == Running && Safe(cfg, others, s)
    ensures SafeStep(cfg, others, s, EnterNewRound(cfg, env, s, height, round))
    decreases 2, 0, 0
  {
    hide NodeInv, CreateProposal, Rotation.ProposerForRound;
    if s.height == height && s.round <= round {
      RoundStartSafe(cfg, others, s, round);
      CreateProposalSafe(cfg, env, others, RoundStart(s, round));
    }
  }

  lemma RoundStartSafe(cfg: Config, others: set<Vote>, s: NodeState, round: int)
    requires GoodSchedule(cfg.vals) && s.halt == Running && Safe(cfg, others, s) && s.round <= round
    ensures Safe(cfg, others, RoundStart(s, round))
  {
    hide Past, Overtaken, HeightVotes.Valid, HeightVotes.Within, Authentic;
    var s1 := RoundStart(s, round);
    PastFrame(cfg, others + s.sent, s, s1);
    LockHeldMonotone(cfg, others + s.sent, others + s.sent, s, Bound(s), Bound(s1));
  }

  lemma CreateProposalSafe(cfg: Config, env: Env, others: set<Vote>, s: NodeState)
    requires GoodSchedule(cfg.vals) && s.halt == Running && Safe(cfg, others, s)
    ensures SafeStep(cfg, others, s, CreateProposal(cfg, env, s))
    decreases 1, 9, 0
  {
    hide NodeInv, EnterPrevote, Sign, OwnProposal;
    var block := BlockToPropose(env, s);
    if block.Some? {
      var p := OwnProposal(env, s, block.value);
      var signed := Sign(cfg, s.signer, ProposalRequest(cfg, p));
      if signed.Some? {
        ProposeSafe(cfg, env, others + s.sent, s, block.value);
        var s1 := s.(signer := signed.value.1, proposal := Some(p.(signature := signed.value.0)),
                     proposalBlock := Some(block.value));
        EnterPrevoteSafe(cfg, env, others, s1, s1.height, s1.round);
      }
    }
  }

  lemma EnterPrevoteSafe(cfg: Config, env: Env, others: set<Vote>, s: NodeState, height: int, round: int)
    requires GoodSchedule(cfg.vals) && s.halt == Running && Safe(cfg, others, s)
    ensures SafeStep(cfg, others, s, EnterPrevote(cfg, env, s, height, round))
    decreases 1, s.Left(), 3
  {
    hide Past, Present, PrevoteJustified, SignAndSendVote, DecidePrevote;
    if s.height == height && s.round == round && s.step.Rank() < PrevoteStep.Rank() {
      PrevoteDecision(cfg, others + s.sent, s);
      var (hash, unlock) := DecidePrevote(cfg, s);
      var s1 := (if unlock then Unlocked(s) else s).(step := PrevoteStep);
      PastFrame(cfg, others + s.sent, s, s1);
      SignAndSendSafe(cfg, env, others, s1, Prevote, hash);
    }
  }

  lemma EnterPrecommitSafe(cfg: Config, env: Env, others: set<Vote>, s: NodeState, height: int, round: int)
    requires GoodSchedule(cfg.vals) && s.halt == Running && Safe(cfg, others, s)
    ensures SafeStep(cfg, others, s, EnterPrecommit(cfg, env, s, height, round))
    decreases 1, s.Left(), 0
  {
    hide Past, Present, PrecommitJustified, SignAndSendVote, DecidePrecommit;
    if s.height == height && s.round == round && s.step.Rank() < PrecommitStep.Rank() {
      var s0 := s.(step := PrecommitStep);
      StepFrame(cfg, others + s.sent, s, PrecommitStep);
      PrecommitDecision(cfg, others + s.sent, s0);
      var (hash, s1) := DecidePrecommit(cfg, s0);
      PastFrame(cfg, others + s.sent, s, s1);
      SignAndSendSafe(cfg, env, others, s1, Precommit, hash);
    }
  }

  /** Only the commit step matters to the invariant. */
  lemma StepFrame(cfg: Config, known: set<Vote>, s: NodeState, step: RoundStep)
    requires NodeInv(cfg, known, s) && step != CommitStep
    ensures NodeInv(cfg, known, s.(step := step))
    ensures s.halt == Running ==> Present(cfg, known, s.(step := step), Bound(s))
  {
    hide Past, Overtaken, HeightVotes.Valid, HeightVotes.Within, Authentic;
    PastFrame(cfg, known, s, s.(step := step));
  }

  lemma SignAndSendSafe(cfg: Config, env: Env, others: set<Vote>, s: NodeState, vtype: VoteType, hash: Option<Bytes>)
    requires GoodSchedule(cfg.vals) && s.halt == Running && (vtype == Prevote || vtype == Precommit)
    requires Past(cfg, others + s.sent, s)
    requires Present(cfg, others + s.sent, s, if vtype == Prevote then Bound(s) else s.round + 1)
    requires vtype == Prevote ==> PrevoteJustified(cfg, others + s.sent, s, hash)
    requires vtype == Precommit ==> PrecommitJustified(cfg, s, hash)
    ensures SafeStep(cfg, others, s, SignAndSendVote(cfg, env, s, vtype, hash))
    decreases 1, s.Left(), 2
  {
    hide Past, Present, NodeInv, PrevoteJustified, PrecommitJustified, Cast, HandlePrevote, HandlePrecommit;
    CastSafe(cfg, env, others, s, vtype, hash);
    var cast := Cast(cfg, env, s, vtype, hash);
    if cast.Some? {
      var (s1, v) := cast.value;
      if s1.halt == Running {
        if vtype == Prevote {
          HandlePrevoteSafe(cfg, env, others, s1, v);
        } else {
          HandlePrecommitSafe(cfg, env, others, s1, v);
        }
      }
    }
  }

  lemma HandlePrevoteSafe(cfg: Config, env: Env, others: set<Vote>, s: NodeState, v: Vote)
    requires GoodSchedule(cfg.vals) && s.halt == Running && Safe(cfg, others, s)
    ensures SafeStep(cfg, others, s, HandlePrevote(cfg, env, s, v))
    decreases if v.round > s.round then 3 else 1, s.Left(), 1
  {
    hide NodeInv, EnterNewRound, EnterPrecommit, EnterPrevote, Tally.HasTwoThirdsAny, Tally.HasTwoThirdsMajority;
    var prevotes := s.votes.Prevotes(v.round);
    if prevotes.Some? {
      if v.round > s.round && prevotes.value.HasTwoThirdsAny() {
        EnterNewRoundSafe(cfg, env, others, s, s.height, v.round);
        var s1 := EnterNewRound(cfg, env, s, s.height, v.round);
        if s1.halt == Running {
          EnterPrecommitSafe(cfg, env, others, s1, s1.height, v.round);
          EnterPrevoteSafe(cfg, env, others, s1, s1.height, v.round);
        }
      } else if v.round == s.round {
        EnterPrecommitSafe(cfg, env, others, s, s.height, s.round);
        StepFrame(cfg, others + s.sent, s, PrevoteWaitStep);
      }
    }
  }

  lemma HandlePrecommitSafe(cfg: Config, env: Env, others: set<Vote>, s: NodeState, v: Vote)
    requires GoodSchedule(cfg.vals) && s.halt == Running && Safe(cfg, others, s)
    ensures SafeStep(cfg, others, s, HandlePrecommit(cfg, env, s, v))
    decreases if v.round > s.round then 3 else 1, s.Left(), 1
  {
    hide Past, ProposalInv, LockJustified, PrecommitsRecorded, LockHeld, EnterNewRound, EnterPrecommit, EnterPrevote,
      EnterCommit, Tally.HasTwoThirdsAny, HeightVotes.Valid, HeightVotes.Within;
    var precommits := s.votes.Precommits(v.round);
    if precommits.Some? {
      if precommits.value.maj23.Some? && precommits.value.maj23.value.Some? {
        var s1 := if v.round > s.round then s.(round := v.round) else s;
        PastFrame(cfg, others + s.sent, s, s1);
        EnterCommitSafe(cfg, env, others, s1, v.round);
      } else if v.round > s.round && precommits.value.HasTwoThirdsAny() {
        EnterNewRoundSafe(cfg, env, others, s, s.height, v.round);
        var s1 := EnterNewRound(cfg, env, s, s.height, v.round);
        if s1.halt == Running {
          EnterPrevoteSafe(cfg, env, others, s1, s1.height, v.round);
          var s2 := EnterPrevote(cfg, env, s1, s1.height, v.round);
          if s2.halt == Running { EnterPrecommitSafe(cfg, env, others, s2, s2.height, v.round); }
        }
      } else {
        StepFrame(cfg, others + s.sent, s, PrecommitWaitStep);
      }
    }
  }

  // ----- Events -----

  /** The votes an event carries. */
  function CarriedVotes(e: Event): set<Vote> {
    match e
    case ProposalEvent(p) => set i | 0 <= i < |p.polVotes| :: p.polVotes[i]
    case VoteEvent(v) => {v}
    case TimeoutEvent(_, _, _) => {}
  }

  /** Signatures cannot be forged: a carried vote that verifies is a known one. */
  ghost predicate Unforged(cfg: Config, known: set<Vote>, e: Event) {
    forall v :: v in CarriedVotes(e) && Authentic(cfg.verifyVote, cfg.vals(v.height), v) ==> v in known
  }

  lemma HandleProposalSafe(cfg: Config, env: Env, others: set<Vote>, s: NodeState, p: Proposal)
    requires GoodSchedule(cfg.vals) && s.halt == Running && Safe(cfg, others, s)
    requires Unforged(cfg, others + s.sent, ProposalEvent(p))
    ensures SafeStep(cfg, others, s, HandleProposal(cfg, env, s, p))
  {
    hide NodeInv, EnterPrevote, Rotation.ProposerForRound, POLAccepted, Unforged;
    if p.height == s.height && p.round == s.round {
      var s1 := s.(proposal := Some(p), proposalBlock := Some(p.block));
      ProposalAccepted(cfg, others, s, p);
      EnterPrevoteSafe(cfg, env, others, s1, s1.height, s1.round);
    }
  }

  lemma ProposalAccepted(cfg: Config, others: set<Vote>, s: NodeState, p: Proposal)
    requires GoodSchedule(cfg.vals) && s.halt == Running && Safe(cfg, others, s)
    requires Unforged(cfg, others + s.sent, ProposalEvent(p)) && p.height == s.height && p.round == s.round
    ensures Safe(cfg, others, s.(proposal := Some(p), proposalBlock := Some(p.block)))
  {
    hide Past, Overtaken, HeightVotes.Valid, HeightVotes.Within, LockJustified, LockHeld, PrecommitsRecorded, Authentic;
    var s1 := s.(proposal := Some(p), proposalBlock := Some(p.block));
    PastFrame(cfg, others + s.sent, s, s1);
    ProposalFrame(cfg, others + s.sent, s, s1);
    ProposalVotesKnown(cfg, others + s.sent, p);
  }

  lemma ProposalVotesKnown(cfg: Config, known: set<Vote>, p: Proposal)
    requires Unforged(cfg, known, ProposalEvent(p))
    ensures POLVotesKnown(cfg, known, cfg.vals(p.height), p)
  {
    hide Authentic;
    forall i | 0 <= i < |p.polVotes| ensures p.polVotes[i] in CarriedVotes(ProposalEvent(p)) {}
  }

  lemma ProposalFrame(cfg: Config, known: set<Vote>, s: NodeState, s1: NodeState)
    requires Present(cfg, known, s, Bound(s))
    requires s1 == s.(proposal := s1.proposal, proposalBlock := s1.proposalBlock)
    ensures LockJustified(cfg, s1) && PrecommitsRecorded(s1) && LockHeld(cfg, known, s1, Bound(s1))
  {
    hide Overtaken, HeightVotes.Valid, HeightVotes.Within, Authentic;
  }

  lemma HandleVoteSafe(cfg: Config, env: Env, others: set<Vote>, s: NodeState, v: Vote)
    requires GoodSchedule(cfg.vals) && s.halt == Running && Safe(cfg, others, s)
    requires Unforged(cfg, others + s.sent, VoteEvent(v))
    ensures SafeStep(cfg, others, s, HandleVote(cfg, env, s, v))
  {
    hide NodeInv, HandlePrevote, HandlePrecommit, AddToHeight, Authentic;
    var s1 := s.(votes := AddToHeight(cfg.verifyVote, env.now, s.votes, v).0);
    RecordOther(cfg, env, others + s.sent, s, s1, v);
    HandlePrevoteSafe(cfg, env, others, s1, v);
    HandlePrecommitSafe(cfg, env, others, s1, v);
  }

  lemma RecordOther(cfg: Config, env: Env, known: set<Vote>, s: NodeState, s1: NodeState, v: Vote)
    requires GoodSchedule(cfg.vals) && s.halt == Running && NodeInv(cfg, known, s)
    requires Unforged(cfg, known, VoteEvent(v))
    requires s1 == s.(votes := AddToHeight(cfg.verifyVote, env.now, s.votes, v).0)
    ensures NodeInv(cfg, known, s1)
  {
    hide Past, Overtaken, HeightVotes.Valid, HeightVotes.Within, AddToHeight, Authentic;
    PastFrame(cfg, known, s, s1);
    if v.height == s.height {
      assert v in CarriedVotes(VoteEvent(v));
      AddToHeightCorrect(cfg.verifyVote, env.now, s.votes, v, known);
      MajoritiesKept(cfg, s, s1);
    } else {
      OtherHeightIgnored(cfg, env, s, v);
    }
  }

  lemma OtherHeightIgnored(cfg: Config, env: Env, s: NodeState, v: Vote)
    requires v.height != s.votes.height
    ensures AddToHeight(cfg.verifyVote, env.now, s.votes, v).0 == s.votes
  {}

  lemma HandleTimeoutSafe(cfg: Config, env: Env, others: set<Vote>, s: NodeState, height: int, round: int,
          step: RoundStep)
    requires GoodSchedule(cfg.vals) && s.halt == Running && Safe(cfg, others, s)
    ensures SafeStep(cfg, others, s, HandleTimeout(cfg, env, s, height, round, step))
  {
    hide NodeInv, EnterPrevote, EnterPrecommit, EnterNewRound;
    EnterPrevoteSafe(cfg, env, others, s, s.height, s.round);
    EnterPrecommitSafe(cfg, env, others, s, s.height, s.round);
    EnterNewRoundSafe(cfg, env, others, s, s.height, if s.round >= MAX_INT32 then MAX_INT32 else s.round + 1);
    EnterNewRoundSafe(cfg, env, others, s, s.height, 0);
  }

  /** Handling any event keeps the invariant and only moves the node forward. */
  lemma HandleSafe(cfg: Config, env: Env, others: set<Vote>, s: NodeState, e: Event)
    requires GoodSchedule(cfg.vals) && Safe(cfg, others, s) && Unforged(cfg, others + s.sent, e)
    ensures SafeStep(cfg, others, s, Handle(cfg, env, s, e))
  {
    hide NodeInv, HandleProposal, HandleVote, HandleTimeout, Unforged;
    if s.halt == Running {
      match e
      case ProposalEvent(p) => HandleProposalSafe(cfg, env, others, s, p);
      case VoteEvent(v) => HandleVoteSafe(cfg, env, others, s, v);
      case TimeoutEvent(height, round, step) => HandleTimeoutSafe(cfg, env, others, s, height, round, step);
    }
  }

  /** A node that starts satisfies the invariant. */
  lemma StartSafe(cfg: Config, env: Env, others: set<Vote>, height: int, lastCommit: Option<Commit>)
    requires GoodSchedule(cfg.vals)
    ensures Safe(cfg, others, Start(cfg, env, height, lastCommit))
  {
    hide EnterNewRound, Present;
    var s := NewNode(cfg, height, lastCommit);
    FreshHeight(cfg, others + s.sent, s);
    EnterNewRoundSafe(cfg, env, others, s, height, 0);
  }
}
