/**
 * The rule for prevotes of a locked node, followed through everything one event can start: the prevote
 * is cast before the lock moves, for the locked block or for one that a later proof of lock carries.
 */
module PrevoteRule {
  import opened Types
  import opened VoteSets
  import opened Node
  import opened NodeInvariants
  import opened NodeSafety
  import Rotation

  ghost predicate New(s: NodeState, s': NodeState, v: Vote) { v in s'.sent && v !in s.sent }

  predicate BlockPrevote(v: Vote, height: int) {
    v.vtype == Prevote && v.height == height && BlockKey(v.blockHash).Some?
  }

  /** For the locked block, or for a block with a prevote quorum strictly between the lock and the vote. */
  ghost predicate Lawful(cfg: Config, known: set<Vote>, s: NodeState, v: Vote) {
    s.lockedBlock.Some? ==>
      || v.blockHash == Some(BlockHash(cfg, s.lockedBlock.value))
      || exists k :: s.lockedRound < k < v.round && Quorum(cfg.vals, known, Prevote, s.height, k, BlockKey(v.blockHash))
  }

  /** Every prevote for a block cast at the height of `s` on the way to `s'` is lawful under the lock of `s`. */
  ghost predicate Obeys(cfg: Config, others: set<Vote>, s: NodeState, s': NodeState) {
    forall v :: New(s, s', v) && BlockPrevote(v, s.height) ==> Lawful(cfg, others + s'.sent, s, v)
  }

  /** Only precommits of the current height were cast. */
  ghost predicate PrecommitsOnly(s: NodeState, s': NodeState) {
    s.sent <= s'.sent && forall v :: New(s, s', v) ==> v.vtype == Precommit && v.height == s.height
  }

  predicate Prevoted(s: NodeState) { s.step.Rank() >= PrevoteStep.Rank() }

  /** A node still before its prevote has the lock it had. */
  predicate LockUntouched(s: NodeState, s': NodeState) {
    s'.halt == Running && s'.height == s.height && !Prevoted(s') ==>
      s'.lockedBlock == s.lockedBlock && s'.lockedRound == s.lockedRound
  }

  /** Within a height the step does not fall back before the prevote. */
  predicate StaysPrevoted(s: NodeState, s': NodeState) {
    s'.halt == Running && s'.height == s.height && Prevoted(s) ==> Prevoted(s')
  }

  // ----- Precommits -----

  lemma CommitCastsNothing(cfg: Config, env: Env, s: NodeState, height: int)
    ensures EnterCommit(cfg, env, s, height).sent == s.sent
    ensures StaysPrevoted(s, EnterCommit(cfg, env, s, height))
  {
    hide CommitRound;
  }

  lemma OwnPrecommit(cfg: Config, env: Env, s: NodeState, hash: Option<Bytes>)
    ensures var s' := SignAndSendVote(cfg, env, s, Precommit, hash); PrecommitsOnly(s, s') && StaysPrevoted(s, s')
  {
    hide EnterCommit, AddToHeight, Sign, OwnIndex, Tally.HasTwoThirdsAny, EnterNewRound;
    var cast := Cast(cfg, env, s, Precommit, hash);
    if cast.Some? { CommitCastsNothing(cfg, env, cast.value.0, s.height); }
  }

  lemma PrecommitCasts(cfg: Config, env: Env, s: NodeState, height: int, round: int)
    ensures var s' := EnterPrecommit(cfg, env, s, height, round);
      PrecommitsOnly(s, s') && StaysPrevoted(s, s')
        && (s' != s ==> Prevoted(s') || s'.halt != Running || s'.height != s.height)
  {
    hide SignAndSendVote;
    var (hash, s1) := DecidePrecommit(cfg, s.(step := PrecommitStep));
    OwnPrecommit(cfg, env, s1, hash);
  }

  // ----- Prevotes -----

  lemma OwnPrevote(cfg: Config, env: Env, s: NodeState, hash: Option<Bytes>)
    requires Prevoted(s)
    ensures var s' := SignAndSendVote(cfg, env, s, Prevote, hash);
      && StaysPrevoted(s, s') && s.sent <= s'.sent
      && forall v :: New(s, s', v) ==>
           v.height == s.height && (v.vtype == Prevote ==> v.round == s.round && v.blockHash == hash)
  {
    hide EnterPrecommit, AddToHeight, Sign, OwnIndex, Tally.HasTwoThirdsAny, EnterNewRound;
    var cast := Cast(cfg, env, s, Prevote, hash);
    if cast.Some? { PrecommitCasts(cfg, env, cast.value.0, s.height, s.round); }
  }

  /** The decision of a locked node is lawful. */
  lemma DecisionLawful(cfg: Config, known: set<Vote>, s: NodeState, v: Vote)
    requires GoodSchedule(cfg.vals) && s.halt == Running && NodeInv(cfg, known, s)
    requires v.blockHash == DecidePrevote(cfg, s).0 && v.round == s.round && BlockKey(v.blockHash).Some?
    ensures Lawful(cfg, known, s, v)
  {
    hide Past, LockJustified, PrecommitsRecorded, LockHeld, HeightVotes.Valid, HeightVotes.Within, POLAccepted, Quorum;
    if s.lockedBlock.Some? && v.blockHash != Some(BlockHash(cfg, s.lockedBlock.value)) {
      var p := s.proposal.value;
      assert s.vals.Valid();
      POLIsQuorum(cfg, known, s.vals, p);
      assert s.lockedRound < p.polRound < v.round;
    }
  }

  lemma LawfulMonotone(cfg: Config, known: set<Vote>, more: set<Vote>, s: NodeState, v: Vote)
    requires GoodSchedule(cfg.vals) && known <= more && Lawful(cfg, known, s, v)
    ensures Lawful(cfg, more, s, v)
  {
    hide Quorum;
    if s.lockedBlock.Some? && v.blockHash != Some(BlockHash(cfg, s.lockedBlock.value)) {
      var k :| s.lockedRound < k < v.round && Quorum(cfg.vals, known, Prevote, s.height, k, BlockKey(v.blockHash));
      QuorumMonotone(cfg.vals, known, more, Prevote, s.height, k, BlockKey(v.blockHash));
    }
  }

  lemma EnterPrevoteObeys(cfg: Config, env: Env, others: set<Vote>, s: NodeState, height: int, round: int)
    requires GoodSchedule(cfg.vals) && s.halt == Running && Safe(cfg, others, s)
    ensures var s' := EnterPrevote(cfg, env, s, height, round);
      && Obeys(cfg, others, s, s') && LockUntouched(s, s') && StaysPrevoted(s, s') && s.sent <= s'.sent
      && (Prevoted(s) ==> s' == s) && forall v :: New(s, s', v) ==> v.height == s.height
  {
    hide NodeInv, SignAndSendVote, DecidePrevote, Lawful;
    if s.height == height && s.round == round && !Prevoted(s) {
      var (hash, unlock) := DecidePrevote(cfg, s);
      var s1 := (if unlock then Unlocked(s) else s).(step := PrevoteStep);
      OwnPrevote(cfg, env, s1, hash);
      var s' := EnterPrevote(cfg, env, s, height, round);
      forall v | New(s, s', v) && BlockPrevote(v, s.height) ensures Lawful(cfg, others + s'.sent, s, v) {
        DecisionLawful(cfg, others + s.sent, s, v);
        LawfulMonotone(cfg, others + s.sent, others + s'.sent, s, v);
      }
    }
  }

  // ----- Putting steps together -----

  /** What an event, or a part of one, does to the prevotes of a node. */
  ghost predicate Follows(cfg: Config, others: set<Vote>, s: NodeState, s': NodeState) {
    && Obeys(cfg, others, s, s') && LockUntouched(s, s') && s.sent <= s'.sent
    && forall v :: New(s, s', v) ==> v.height >= s.height
  }

  /** A change that casts nothing and leaves height and lock alone does not matter. */
  lemma FollowsFrom(cfg: Config, others: set<Vote>, s: NodeState, s1: NodeState, s': NodeState)
    requires s1.sent == s.sent && s1.height == s.height
    requires s1.lockedBlock == s.lockedBlock && s1.lockedRound == s.lockedRound
    requires Follows(cfg, others, s1, s')
    ensures Follows(cfg, others, s, s')
  {
    hide Quorum;
    forall v | New(s, s', v) && BlockPrevote(v, s.height) ensures Lawful(cfg, others + s'.sent, s, v) {
      assert New(s1, s', v) && Lawful(cfg, others + s'.sent, s1, v);
    }
    forall v | New(s, s', v) ensures v.height >= s.height { assert New(s1, s', v); }
  }

  /** After a first part, a second one that casts prevotes only if the node is still before its prevote. */
  lemma FollowsThen(cfg: Config, others: set<Vote>, s: NodeState, s1: NodeState, s2: NodeState)
    requires GoodSchedule(cfg.vals) && s1.halt == Running && Follows(cfg, others, s, s1) && Follows(cfg, others, s1, s2)
    requires Prevoted(s1) ==> forall v :: New(s1, s2, v) ==> v.vtype == Precommit
    requires StaysPrevoted(s1, s2) && s.height <= s1.height <= s2.height
    ensures Follows(cfg, others, s, s2)
  {
    hide Quorum;
    forall v | New(s, s2, v)
      ensures v.height >= s.height && (BlockPrevote(v, s.height) ==> Lawful(cfg, others + s2.sent, s, v))
    {
      if New(s, s1, v) {
        if BlockPrevote(v, s.height) { LawfulMonotone(cfg, others + s1.sent, others + s2.sent, s, v); }
      } else {
        assert New(s1, s2, v);
      }
    }
  }

  lemma CreateProposalFollows(cfg: Config, env: Env, others: set<Vote>, s: NodeState)
    requires GoodSchedule(cfg.vals) && s.halt == Running && Safe(cfg, others, s)
    ensures Follows(cfg, others, s, CreateProposal(cfg, env, s))
  {
    hide NodeInv, EnterPrevote, Sign, OwnProposal, Obeys;
    var block := BlockToPropose(env, s);
    if block.Some? {
      var p := OwnProposal(env, s, block.value);
      var signed := Sign(cfg, s.signer, ProposalRequest(cfg, p));
      if signed.Some? {
        ProposeSafe(cfg, env, others + s.sent, s, block.value);
        var s1 := s.(signer := signed.value.1, proposal := Some(p.(signature := signed.value.0)),
                     proposalBlock := Some(block.value));
        EnterPrevoteObeys(cfg, env, others, s1, s1.height, s1.round);
        FollowsFrom(cfg, others, s, s1, CreateProposal(cfg, env, s));
      } else {
        FollowsItself(cfg, others, s);
      }
    } else {
      FollowsItself(cfg, others, s);
    }
  }

  lemma FollowsItself(cfg: Config, others: set<Vote>, s: NodeState)
    ensures Follows(cfg, others, s, s)
  {}

  lemma EnterNewRoundFollows(cfg: Config, env: Env, others: set<Vote>, s: NodeState, height: int, round: int)
    requires GoodSchedule(cfg.vals) && s.halt == Running && Safe(cfg, others, s)
    ensures Follows(cfg, others, s, EnterNewRound(cfg, env, s, height, round))
  {
    hide NodeInv, CreateProposal, Rotation.ProposerForRound, Follows;
    FollowsItself(cfg, others, s);
    if s.height == height && s.round <= round {
      var s1 := RoundStart(s, round);
      RoundStartSafe(cfg, others, s, round);
      CreateProposalFollows(cfg, env, others, s1);
      FollowsItself(cfg, others, s1);
      FollowsFrom(cfg, others, s, s1, EnterNewRound(cfg, env, s, height, round));
    }
  }

  lemma PrecommitFollows(cfg: Config, env: Env, others: set<Vote>, s: NodeState, height: int, round: int)
    ensures Follows(cfg, others, s, EnterPrecommit(cfg, env, s, height, round))
  {
    hide EnterPrecommit, Lawful;
    PrecommitCasts(cfg, env, s, height, round);
  }

  /** After a first part that follows the rule, the node enters prevote or precommit. */
  lemma ThenVotes(cfg: Config, env: Env, others: set<Vote>, s: NodeState, s1: NodeState, round: int)
    requires GoodSchedule(cfg.vals) && s1.halt == Running && Follows(cfg, others, s, s1)
    requires Safe(cfg, others, s1) && s.height <= s1.height
    ensures Follows(cfg, others, s, EnterPrevote(cfg, env, s1, s1.height, round))
    ensures Follows(cfg, others, s, EnterPrecommit(cfg, env, s1, s1.height, round))
  {
    hide NodeInv, EnterPrecommit, EnterPrevote, Lawful, Quorum, Obeys;
    EnterPrevoteObeys(cfg, env, others, s1, s1.height, round);
    PrecommitFollows(cfg, env, others, s1, s1.height, round);
    PrecommitCasts(cfg, env, s1, s1.height, round);
    EnterPrevoteSafe(cfg, env, others, s1, s1.height, round);
    EnterPrecommitSafe(cfg, env, others, s1, s1.height, round);
    FollowsThen(cfg, others, s, s1, EnterPrevote(cfg, env, s1, s1.height, round));
    FollowsThen(cfg, others, s, s1, EnterPrecommit(cfg, env, s1, s1.height, round));
  }

  lemma HandlePrevoteFollows(cfg: Config, env: Env, others: set<Vote>, s: NodeState, v: Vote)
    requires GoodSchedule(cfg.vals) && s.halt == Running && Safe(cfg, others, s)
    ensures Follows(cfg, others, s, HandlePrevote(cfg, env, s, v))
  {
    hide NodeInv, EnterNewRound, EnterPrecommit, EnterPrevote, Tally.HasTwoThirdsAny, Tally.HasTwoThirdsMajority, Obeys;
    FollowsItself(cfg, others, s);
    var prevotes := s.votes.Prevotes(v.round);
    if prevotes.Some? {
      if v.round > s.round && prevotes.value.HasTwoThirdsAny() {
        EnterNewRoundFollows(cfg, env, others, s, s.height, v.round);
        EnterNewRoundSafe(cfg, env, others, s, s.height, v.round);
        var s1 := EnterNewRound(cfg, env, s, s.height, v.round);
        if s1.halt == Running { ThenVotes(cfg, env, others, s, s1, v.round); }
      } else if v.round == s.round {
        PrecommitFollows(cfg, env, others, s, s.height, s.round);
        QuietFollows(cfg, others, s, s.(step := PrevoteWaitStep));
      }
    }
  }

  lemma QuietFollows(cfg: Config, others: set<Vote>, s: NodeState, s': NodeState)
    requires s'.sent == s.sent
    requires s'.height == s.height && s'.halt == Running ==> Prevoted(s')
    ensures Follows(cfg, others, s, s')
  {}

  lemma HandlePrecommitFollows(cfg: Config, env: Env, others: set<Vote>, s: NodeState, v: Vote)
    requires GoodSchedule(cfg.vals) && s.halt == Running && Safe(cfg, others, s)
    ensures Follows(cfg, others, s, HandlePrecommit(cfg, env, s, v))
  {
    hide NodeInv, EnterNewRound, EnterPrecommit, EnterPrevote, EnterCommit, Tally.HasTwoThirdsAny, Obeys;
    FollowsItself(cfg, others, s);
    var precommits := s.votes.Precommits(v.round);
    if precommits.Some? {
      if precommits.value.maj23.Some? && precommits.value.maj23.value.Some? {
        var s1 := if v.round > s.round then s.(round := v.round) else s;
        CommitFollows(cfg, env, others, s1);
        FollowsFrom(cfg, others, s, s1, EnterCommit(cfg, env, s1, s1.height));
      } else if v.round > s.round && precommits.value.HasTwoThirdsAny() {
        EnterNewRoundFollows(cfg, env, others, s, s.height, v.round);
        EnterNewRoundSafe(cfg, env, others, s, s.height, v.round);
        var s1 := EnterNewRound(cfg, env, s, s.height, v.round);
        if s1.halt == Running {
          ThenVotes(cfg, env, others, s, s1, v.round);
          EnterPrevoteSafe(cfg, env, others, s1, s1.height, v.round);
          var s2 := EnterPrevote(cfg, env, s1, s1.height, v.round);
          if s2.halt == Running { ThenVotes(cfg, env, others, s, s2, v.round); }
        }
      } else {
        QuietFollows(cfg, others, s, s.(step := PrecommitWaitStep));
      }
    }
  }

  lemma CommitFollows(cfg: Config, env: Env, others: set<Vote>, s: NodeState)
    ensures Follows(cfg, others, s, EnterCommit(cfg, env, s, s.height))
  {
    hide CommitRound;
  }

  // ----- Events -----

  lemma HandleProposalFollows(cfg: Config, env: Env, others: set<Vote>, s: NodeState, p: Proposal)
    requires GoodSchedule(cfg.vals) && s.halt == Running && Safe(cfg, others, s)
    requires Unforged(cfg, others + s.sent, ProposalEvent(p))
    ensures Follows(cfg, others, s, HandleProposal(cfg, env, s, p))
  {
    hide NodeInv, EnterPrevote, Rotation.ProposerForRound, POLAccepted, Obeys, Unforged;
    FollowsItself(cfg, others, s);
    if p.height == s.height && p.round == s.round && s.proposal.None? {
      var s1 := s.(proposal := Some(p), proposalBlock := Some(p.block));
      ProposalAccepted(cfg, others, s, p);
      EnterPrevoteObeys(cfg, env, others, s1, s1.height, s1.round);
      FollowsFrom(cfg, others, s, s1, EnterPrevote(cfg, env, s1, s1.height, s1.round));
    }
  }

  lemma HandleVoteFollows(cfg: Config, env: Env, others: set<Vote>, s: NodeState, v: Vote)
    requires GoodSchedule(cfg.vals) && s.halt == Running && Safe(cfg, others, s)
    requires Unforged(cfg, others + s.sent, VoteEvent(v))
    ensures Follows(cfg, others, s, HandleVote(cfg, env, s, v))
  {
    hide NodeInv, HandlePrevote, HandlePrecommit, AddToHeight, Follows, Unforged;
    var s1 := s.(votes := AddToHeight(cfg.verifyVote, env.now, s.votes, v).0);
    RecordOther(cfg, env, others + s.sent, s, s1, v);
    FollowsItself(cfg, others, s1);
    HandlePrevoteFollows(cfg, env, others, s1, v);
    HandlePrecommitFollows(cfg, env, others, s1, v);
    FollowsFrom(cfg, others, s, s1, HandleVote(cfg, env, s, v));
  }

  lemma HandleTimeoutFollows(cfg: Config, env: Env, others: set<Vote>, s: NodeState, height: int, round: int,
          step: RoundStep)
    requires GoodSchedule(cfg.vals) && s.halt == Running && Safe(cfg, others, s)
    ensures Follows(cfg, others, s, HandleTimeout(cfg, env, s, height, round, step))
  {
    hide NodeInv, EnterPrevote, EnterPrecommit, EnterNewRound, Obeys;
    FollowsItself(cfg, others, s);
    EnterPrevoteObeys(cfg, env, others, s, s.height, s.round);
    PrecommitFollows(cfg, env, others, s, s.height, s.round);
    EnterNewRoundFollows(cfg, env, others, s, s.height, if s.round >= MAX_INT32 then MAX_INT32 else s.round + 1);
    EnterNewRoundFollows(cfg, env, others, s, s.height, 0);
  }

  /** Whatever one event starts, the prevotes cast at the height obey the lock the node had before it. */
  lemma HandleObeys(cfg: Config, env: Env, others: set<Vote>, s: NodeState, e: Event)
    requires GoodSchedule(cfg.vals) && Safe(cfg, others, s) && Unforged(cfg, others + s.sent, e)
    ensures Obeys(cfg, others, s, Handle(cfg, env, s, e))
  {
    hide NodeInv, HandleProposal, HandleVote, HandleTimeout, Unforged, Lawful;
    if s.halt == Running {
      match e
      case ProposalEvent(p) => HandleProposalFollows(cfg, env, others, s, p);
      case VoteEvent(v) => HandleVoteFollows(cfg, env, others, s, v);
      case TimeoutEvent(height, round, step) => HandleTimeoutFollows(cfg, env, others, s, height, round, step);
    }
  }
}
