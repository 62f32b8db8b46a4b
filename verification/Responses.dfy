/**
 * How a node responds to an event: which proposals it records and makes, what it votes for and when, and
 * which round it moves to. Everything is said of the state before an event and the state after it, with
 * whatever the event starts in between.
 */
module Responses {
  import opened Types
  import opened Validators
  import opened VoteSets
  import opened Commits
  import opened Node
  import opened NodeInvariants
  import opened NodeSafety
  import opened Network
  import opened CommitHalts
  import Privval
  import Rotation

  // ----- Votes -----

  ghost predicate New(s: NodeState, s': NodeState, v: Vote) { v in s'.sent && v !in s.sent }

  /** A vote of this kind was sent for this place. */
  ghost predicate CastAt(s: NodeState, vtype: VoteType, height: int, round: int) {
    exists v :: v in s.sent && v.vtype == vtype && v.height == height && v.round == round
  }

  /** The node is a validator, and its signer has not reached this step of the round. */
  ghost predicate Able(cfg: Config, s: NodeState, round: int, step: int) {
    && cfg.me.Some? && (exists i :: 0 <= i < |s.vals.validators| && s.vals.validators[i].publicKey == cfg.me.value)
    && Privval.HRSBefore(s.signer.height, s.signer.round, s.signer.step, s.height, round, step)
  }

  /** A proposal that a node with this lock prevotes for. */
  predicate MayPrevote(cfg: Config, s: NodeState, q: Proposal) {
    || s.lockedBlock.None?
    || BlockHash(cfg, s.lockedBlock.value) == BlockHash(cfg, q.block)
    || (0 <= q.polRound && s.lockedRound < q.polRound < q.round && POLAccepted(cfg, s.vals, q))
  }

  /** What a node prevotes for when it holds a proposal, or none. */
  function PrevoteChoice(cfg: Config, s: NodeState, held: Option<Proposal>): Option<Bytes> {
    if held.Some? && MayPrevote(cfg, s, held.value) then Some(BlockHash(cfg, held.value.block)) else None
  }

  /** A prevote majority of the current round for the block the node holds. */
  ghost predicate Backed(cfg: Config, s: NodeState, h: Bytes) {
    HasMajority(s, s.round, Some(h)) && s.proposalBlock.Some? && BlockHash(cfg, s.proposalBlock.value) == h
  }

  predicate Majority(s: NodeState) {
    s.round in s.votes.prevotes && s.votes.prevotes[s.round].maj23.Some?
  }

  predicate HoldsProposal(s: NodeState) {
    s.proposalBlock == if s.proposal.Some? then Some(s.proposal.value.block) else None
  }

  /** The block handed to the executor last. */
  predicate AppliedLast(s: NodeState, s': NodeState, b: Option<Block>) {
    |s'.applied| == |s.applied| + 1 && b == Some(s'.applied[|s.applied|].block)
  }

  // ----- Phases of a round -----

  /** Part of a round: only votes of the round are cast, and the proposal stays, or the height is over. */
  ghost predicate Phase(env: Env, s: NodeState, s': NodeState) {
    && s.sent <= s'.sent
    && (forall v :: New(s, s', v) ==> v.height == s.height && v.round == s.round && v.timestamp == env.now)
    && (if s'.height == s.height
        then
          && s'.round == s.round && s'.vals == s.vals
          && s'.proposal == s.proposal && s'.proposalBlock == s.proposalBlock
          && (s'.halt == Running ==> s'.applied == s.applied) && s.votes.prevotes.Keys <= s'.votes.prevotes.Keys
        else s'.height == s.height + 1 && s'.round == 0 && s'.halt == Running && AppliedLast(s, s', s.proposalBlock))
  }

  /** A precommit is for the held block when that has a prevote majority, and else for nil. */
  ghost predicate PrecommitRule(cfg: Config, s: NodeState, v: Vote) {
    forall h :: v.blockHash == Some(h) <==> Backed(cfg, s, h)
  }

  /** The lock after a precommit: on the block precommitted, off for a nil majority, else as before. */
  ghost predicate LockRule(cfg: Config, s: NodeState, s': NodeState) {
    && ((exists h :: Backed(cfg, s, h)) ==>
          s'.lockedBlock == s'.validBlock == s.proposalBlock && s'.lockedRound == s'.validRound == s.round)
    && (!(exists h :: Backed(cfg, s, h)) ==>
          && s'.validBlock == s.validBlock && s'.validRound == s.validRound
          && (if HasMajority(s, s.round, None) then s'.lockedBlock == None && s'.lockedRound == -1
              else s'.lockedBlock == s.lockedBlock && s'.lockedRound == s.lockedRound))
  }

  ghost predicate PrecommitPhase(cfg: Config, env: Env, s: NodeState, s': NodeState) {
    && Phase(env, s, s')
    && (forall v :: New(s, s', v) ==> v.vtype == Precommit && PrecommitRule(cfg, s, v))
    && (Able(cfg, s, s.round, Privval.STEP_PRECOMMIT) ==> CastAt(s', Precommit, s.height, s.round))
    && (s'.height == s.height ==>
          && s'.votes.prevotes == s.votes.prevotes && LockRule(cfg, s, s')
          && (s'.halt == Running ==> s'.step.Rank() >= PrecommitStep.Rank()))
    && (s'.height != s.height ==> exists h :: Backed(cfg, s, h))
  }

  ghost predicate PrevotePhase(cfg: Config, env: Env, s: NodeState, s': NodeState) {
    && Phase(env, s, s')
    && (forall v :: New(s, s', v) && v.vtype == Prevote ==> v.blockHash == PrevoteChoice(cfg, s, s.proposal))
    && (forall v :: New(s, s', v) && v.vtype != Prevote ==>
          v.vtype == Precommit && if s'.height == s.height then PrecommitRule(cfg, s', v) else CommitVote(cfg, s, v))
    && (Able(cfg, s, s.round, Privval.STEP_PREVOTE) ==> CastAt(s', Prevote, s.height, s.round))
    && (s'.height == s.height && s'.halt == Running ==>
          && s'.step.Rank() >= PrevoteStep.Rank()
          && (Able(cfg, s, s.round, Privval.STEP_PREVOTE) ==> WentOn(cfg, s', s.height, s.round)))
  }

  /** The precommit is cast, or there is no prevote majority and the signer can still sign it. */
  ghost predicate WentOn(cfg: Config, s: NodeState, height: int, round: int) {
    || CastAt(s, Precommit, height, round)
    || (!Majority(s) && s.step.Rank() < PrecommitStep.Rank() && Able(cfg, s, round, Privval.STEP_PRECOMMIT))
  }

  /** A precommit for the held block. */
  predicate CommitVote(cfg: Config, s: NodeState, v: Vote) {
    s.proposalBlock.Some? && v.blockHash == Some(BlockHash(cfg, s.proposalBlock.value))
  }

  // ----- Own votes -----

  function StepNo(vtype: VoteType): int {
    if vtype == Prevote then Privval.STEP_PREVOTE else Privval.STEP_PRECOMMIT
  }

  lemma AbleToCast(cfg: Config, env: Env, s: NodeState, vtype: VoteType, hash: Option<Bytes>)
    requires Able(cfg, s, s.round, StepNo(vtype))
    ensures Cast(cfg, env, s, vtype, hash).Some?
  {
    hide AddToHeight, FindKey;
    var index := OwnIndex(cfg, s);
    if index.Some? {
      var req := VoteRequest(Ballot(env, s, vtype, hash, index.value));
      Privval.CheckHRSMeaning(s.signer, req.height, req.round, req.step);
    }
  }

  /** What casting does. */
  lemma CastDoes(cfg: Config, env: Env, s: NodeState, vtype: VoteType, hash: Option<Bytes>)
    requires Cast(cfg, env, s, vtype, hash).Some? && (vtype == Prevote || vtype == Precommit)
    ensures var (s1, v) := Cast(cfg, env, s, vtype, hash).value;
      && v.vtype == vtype && v.height == s.height && v.round == s.round && v.blockHash == hash
      && v.timestamp == env.now
      && s1 == s.(signer := s1.signer, sent := s.sent + {v}, votes := s1.votes, halt := s1.halt)
      && (s.halt == Running ==> s1.halt == Running || s1.halt == OwnVoteRejected)
      && (vtype == Prevote ==> Able(cfg, s1, s.round, Privval.STEP_PRECOMMIT))
      && (vtype == Precommit ==> s1.votes.prevotes == s.votes.prevotes)
      && s.votes.prevotes.Keys <= s1.votes.prevotes.Keys
  {
    hide AddVote, FindKey, IsHashEmpty;
    var index := OwnIndex(cfg, s);
    var req := VoteRequest(Ballot(env, s, vtype, hash, index.value));
    Privval.CheckHRSMeaning(s.signer, req.height, req.round, req.step);
  }

  lemma SentIsCast(s: NodeState, s': NodeState, v: Vote)
    requires v in s'.sent
    ensures CastAt(s', v.vtype, v.height, v.round)
  {}

  /** The own precommit and all that it starts, after the lock was set for it. */
  ghost predicate PrecommitSent(cfg: Config, env: Env, s: NodeState, s': NodeState, hash: Option<Bytes>) {
    && s.sent <= s'.sent
    && (forall v :: New(s, s', v) ==>
          && v.height == s.height && v.round == s.round && v.timestamp == env.now
          && v.vtype == Precommit && v.blockHash == hash)
    && (Able(cfg, s, s.round, Privval.STEP_PRECOMMIT) ==> CastAt(s', Precommit, s.height, s.round))
    && (if s'.height == s.height
        then
          && s' == s.(step := s'.step, signer := s'.signer, sent := s'.sent, votes := s'.votes, halt := s'.halt,
                      applied := s'.applied)
          && s'.votes.prevotes == s.votes.prevotes
          && (s'.halt == Running ==> s'.step.Rank() >= PrecommitStep.Rank() && s'.applied == s.applied)
        else
          && s'.height == s.height + 1 && s'.round == 0 && s'.halt == Running && hash.Some?
          && AppliedLast(s, s', s.lockedBlock))
  }

  lemma PrecommitSends(cfg: Config, env: Env, s: NodeState, hash: Option<Bytes>)
    requires s.halt == Running && s.step == PrecommitStep && Undecided(s.votes) && LockedFor(cfg, s, hash)
    ensures PrecommitSent(cfg, env, s, SignAndSendVote(cfg, env, s, Precommit, hash), hash)
  {
    hide AddToHeight, Cast, HandlePrecommit, Undecided, OnlyDecision, Able, IsHashEmpty, CastAt;
    var cast := Cast(cfg, env, s, Precommit, hash);
    if Able(cfg, s, s.round, Privval.STEP_PRECOMMIT) { AbleToCast(cfg, env, s, Precommit, hash); }
    if cast.Some? {
      CastDoes(cfg, env, s, Precommit, hash);
      CastOutcome(cfg, env, s, Precommit, hash);
      var (s1, v) := cast.value;
      AddedVote(cfg.verifyVote, env.now, s.votes, v);
      SentIsCast(s, s1, v);
      if s1.halt == Running {
        PrecommitHandled(cfg, env, s1, v);
        SentIsCast(s1, HandlePrecommit(cfg, env, s1, v), v);
      }
    }
  }

  lemma PrecommitHandled(cfg: Config, env: Env, s: NodeState, v: Vote)
    requires s.halt == Running && s.step == PrecommitStep && v.round == s.round && LockedFor(cfg, s, v.blockHash)
    requires Undecided(s.votes)
      || (BlockKey(v.blockHash).Some? && OnlyDecision(s.votes.precommits, v.round, BlockKey(v.blockHash).value))
    ensures var s' := HandlePrecommit(cfg, env, s, v);
      && s'.sent == s.sent
      && (if s'.height == s.height
          then
            && s' == s.(step := s'.step, halt := s'.halt, applied := s'.applied)
            && (s'.halt == Running ==> s'.step.Rank() >= PrecommitStep.Rank() && s'.applied == s.applied)
          else
            && s'.height == s.height + 1 && s'.round == 0 && s'.halt == Running && v.blockHash.Some?
            && AppliedLast(s, s', s.lockedBlock))
  {
    hide EnterNewRound, EnterPrevote, EnterPrecommit, Tally.HasTwoThirdsAny, IsHashEmpty, CommitRound, MakeCommit;
    if Undecided(s.votes) {
      assert !Decides(s.votes.precommits, v.round);
    } else {
      EnterCommitEnds(cfg, env, s, v.round, v.blockHash.value);
    }
  }

  lemma EnterPrecommitDoes(cfg: Config, env: Env, s: NodeState)
    requires s.halt == Running && Undecided(s.votes) && s.step.Rank() < PrecommitStep.Rank()
    ensures PrecommitPhase(cfg, env, s, EnterPrecommit(cfg, env, s, s.height, s.round))
  {
    hide SignAndSendVote, Undecided, Able, CastAt;
    var (hash, s1) := DecidePrecommit(cfg, s.(step := PrecommitStep));
    PrecommitSends(cfg, env, s1, hash);
    var s' := SignAndSendVote(cfg, env, s1, Precommit, hash);
    SameAble(cfg, s, s1, s.round, Privval.STEP_PRECOMMIT);
    if hash.Some? { assert Backed(cfg, s, hash.value); }
  }

  lemma SameAble(cfg: Config, s: NodeState, s1: NodeState, round: int, step: int)
    requires s1.vals == s.vals && s1.signer == s.signer && s1.height == s.height
    ensures Able(cfg, s, round, step) <==> Able(cfg, s1, round, step)
  {}

  // ----- Prevotes -----

  /** The own prevote and all that it starts. */
  lemma PrevoteSends(cfg: Config, env: Env, s: NodeState, hash: Option<Bytes>)
    requires s.halt == Running && s.step == PrevoteStep && Undecided(s.votes)
    ensures var s' := SignAndSendVote(cfg, env, s, Prevote, hash);
      && Phase(env, s, s')
      && (forall v :: New(s, s', v) && v.vtype == Prevote ==> v.blockHash == hash)
      && (forall v :: New(s, s', v) && v.vtype != Prevote ==>
            v.vtype == Precommit && if s'.height == s.height then PrecommitRule(cfg, s', v) else CommitVote(cfg, s, v))
      && (Able(cfg, s, s.round, Privval.STEP_PREVOTE) ==> CastAt(s', Prevote, s.height, s.round))
      && (s'.height == s.height && s'.halt == Running ==>
            && s'.step.Rank() >= PrevoteStep.Rank()
            && (Able(cfg, s, s.round, Privval.STEP_PREVOTE) ==> WentOn(cfg, s', s.height, s.round)))
  {
    hide AddToHeight, Cast, HandlePrevote, Undecided, OnlyDecision, Able, CastAt, PrecommitRule, Majority;
    var cast := Cast(cfg, env, s, Prevote, hash);
    if Able(cfg, s, s.round, Privval.STEP_PREVOTE) { AbleToCast(cfg, env, s, Prevote, hash); }
    if cast.Some? {
      CastDoes(cfg, env, s, Prevote, hash);
      CastOutcome(cfg, env, s, Prevote, hash);
      var (s1, v) := cast.value;
      AddedVote(cfg.verifyVote, env.now, s.votes, v);
      SentIsCast(s, s1, v);
      if s1.halt == Running {
        PrevoteHandled(cfg, env, s1, v);
        SentIsCast(s1, HandlePrevote(cfg, env, s1, v), v);
      }
    }
  }

  /** What the own prevote starts once it is recorded. */
  lemma PrevoteHandled(cfg: Config, env: Env, s: NodeState, v: Vote)
    requires s.halt == Running && s.step == PrevoteStep && Undecided(s.votes) && v.round == s.round
    requires Able(cfg, s, s.round, Privval.STEP_PRECOMMIT)
    ensures var s' := HandlePrevote(cfg, env, s, v);
      && Phase(env, s, s')
      && (forall w :: New(s, s', w) ==>
            w.vtype == Precommit && if s'.height == s.height then PrecommitRule(cfg, s', w) else CommitVote(cfg, s, w))
      && (s'.height == s.height && s'.halt == Running ==>
            s'.step.Rank() >= PrevoteStep.Rank() && WentOn(cfg, s', s.height, s.round))
  {
    hide EnterNewRound, EnterPrecommit, EnterPrevote, Tally.HasTwoThirdsAny, Undecided, Able, CastAt, PrecommitRule,
      CommitVote, LockRule, Backed;
    EnterPrecommitDoes(cfg, env, s);
    SameAble(cfg, s, s.(step := PrevoteWaitStep), s.round, Privval.STEP_PRECOMMIT);
    var s2 := EnterPrecommit(cfg, env, s, s.height, s.round);
    forall w | New(s, s2, w)
      ensures w.vtype == Precommit
      ensures if s2.height == s.height then PrecommitRule(cfg, s2, w) else CommitVote(cfg, s, w)
    {
      RuleCarries(cfg, env, s, s2, w);
    }
  }

  /** The rule of a precommit can be read off the state after it. */
  lemma RuleCarries(cfg: Config, env: Env, s: NodeState, s': NodeState, w: Vote)
    requires PrecommitPhase(cfg, env, s, s') && New(s, s', w)
    ensures w.vtype == Precommit
    ensures if s'.height == s.height then PrecommitRule(cfg, s', w) else CommitVote(cfg, s, w)
  {
    hide Able, CastAt, LockRule;
    if s'.height == s.height {
      forall h ensures w.blockHash == Some(h) <==> Backed(cfg, s', h) {
        assert Backed(cfg, s, h) <==> Backed(cfg, s', h);
      }
    }
  }

  lemma EnterPrevoteDoes(cfg: Config, env: Env, s: NodeState)
    requires s.halt == Running && Undecided(s.votes) && s.step.Rank() < PrevoteStep.Rank() && HoldsProposal(s)
    ensures PrevotePhase(cfg, env, s, EnterPrevote(cfg, env, s, s.height, s.round))
  {
    hide SignAndSendVote, Undecided, Able, CastAt, POLAccepted, PrecommitRule;
    var (hash, unlock) := DecidePrevote(cfg, s);
    assert hash == PrevoteChoice(cfg, s, s.proposal);
    var s1 := (if unlock then Unlocked(s) else s).(step := PrevoteStep);
    PrevoteSends(cfg, env, s1, hash);
    SameAble(cfg, s, s1, s.round, Privval.STEP_PREVOTE);
  }

  // ----- Rounds -----

  /** The proposal a node makes itself when it enters a round, if it makes one. */
  function OwnOffer(cfg: Config, env: Env, s: NodeState, round: int): Option<Proposal> {
    var s1 := RoundStart(s, round);
    var block := BlockToPropose(env, s1);
    if cfg.me != Some(Rotation.ProposerForRound(s.vals, round).publicKey) || block.None? then None else
      var p := OwnProposal(env, s1, block.value);
      var signed := Sign(cfg, s.signer, ProposalRequest(cfg, p));
      if signed.None? then None else Some(p.(signature := signed.value.0))
  }

  /** All that a node did in a round it prevotes in: its votes, by the proposal it holds there. */
  ghost predicate Answers(cfg: Config, env: Env, s: NodeState, round: int, held: Option<Proposal>, s': NodeState) {
    && s.sent <= s'.sent
    && (forall v :: New(s, s', v) ==> VoteRule(cfg, env, s, round, held, s', v))
    && (if s'.height == s.height
        then
          && s'.round == round && s'.proposal == held && HoldsProposal(s') && s'.vals == s.vals
          && (s'.halt == Running ==> s'.applied == s.applied) && s.votes.prevotes.Keys <= s'.votes.prevotes.Keys
        else
          && s'.height == s.height + 1 && s'.round == 0 && s'.halt == Running
          && held.Some? && AppliedLast(s, s', Some(held.value.block)))
  }

  /**
   * A prevote follows the lock and the held proposal. A precommit is for the held block when that has a
   * prevote majority, and else for nil; when the height is over it was for the block applied.
   */
  ghost predicate VoteRule(cfg: Config, env: Env, s: NodeState, round: int, held: Option<Proposal>, s': NodeState,
          v: Vote) {
    && v.height == s.height && v.round == round && v.timestamp == env.now
    && (v.vtype == Prevote || v.vtype == Precommit)
    && (v.vtype == Prevote ==> v.blockHash == PrevoteChoice(cfg, s, held))
    && (v.vtype == Precommit && s'.height == s.height ==> PrecommitRule(cfg, s', v))
    && (v.vtype == Precommit && s'.height != s.height ==>
          held.Some? && v.blockHash == Some(BlockHash(cfg, held.value.block)))
  }

  /** Entering a round: without an own proposal the node waits for one, else it prevotes. */
  ghost predicate RoundEntered(cfg: Config, env: Env, s: NodeState, round: int, s': NodeState) {
    var q := OwnOffer(cfg, env, s, round);
    && Answers(cfg, env, s, round, q, s')
    && (q.None? ==> s' == s.(round := round, step := ProposeStep, proposal := None, proposalBlock := None,
                             validRound := if round == 0 then -1 else s.validRound,
                             validBlock := if round == 0 then None else s.validBlock))
    && (q.Some? && IsValidator(cfg, s) ==> CastAt(s', Prevote, s.height, round))
    && (q.Some? && s'.height == s.height && s'.halt == Running ==>
          && s'.step.Rank() >= PrevoteStep.Rank()
          && (IsValidator(cfg, s) ==> WentOn(cfg, s', s.height, round)))
  }

  ghost predicate IsValidator(cfg: Config, s: NodeState) {
    cfg.me.Some? && exists i :: 0 <= i < |s.vals.validators| && s.vals.validators[i].publicKey == cfg.me.value
  }

  lemma EnterNewRoundDoes(cfg: Config, env: Env, s: NodeState, round: int)
    requires s.halt == Running && Undecided(s.votes) && round >= s.round
    ensures RoundEntered(cfg, env, s, round, EnterNewRound(cfg, env, s, s.height, round))
  {
    hide EnterPrevote, Undecided, CastAt, POLAccepted, PrecommitRule, SortedVotes, Rotation.ProposerForRound, Able,
      Sign, OwnProposal;
    var s1 := RoundStart(s, round);
    var block := BlockToPropose(env, s1);
    var q := OwnOffer(cfg, env, s, round);
    if q.Some? {
      var p := OwnProposal(env, s1, block.value);
      OwnHasBlock(env, s1, block.value);
      var signed := Sign(cfg, s.signer, ProposalRequest(cfg, p));
      var s2 := s1.(signer := signed.value.1, proposal := q, proposalBlock := block);
      EnterPrevoteDoes(cfg, env, s2);
      ProposalSigned(cfg, env, s1, block.value);
      SameAble(cfg, s1.(signer := signed.value.1), s2, round, Privval.STEP_PREVOTE);
      var s' := EnterPrevote(cfg, env, s2, s2.height, s2.round);
      assert EnterNewRound(cfg, env, s, s.height, round) == s';
      SameChoice(cfg, s, s2, q);
      PhaseAnswers(cfg, env, s, s2, s');
    }
  }

  lemma OwnHasBlock(env: Env, s: NodeState, block: Block)
    ensures OwnProposal(env, s, block).block == block && OwnProposal(env, s, block).height == s.height
    ensures OwnProposal(env, s, block).round == s.round
  {}

  lemma SameChoice(cfg: Config, s: NodeState, s2: NodeState, held: Option<Proposal>)
    requires s2.vals == s.vals && s2.lockedBlock == s.lockedBlock && s2.lockedRound == s.lockedRound
    ensures PrevoteChoice(cfg, s2, held) == PrevoteChoice(cfg, s, held)
  {
    hide POLAccepted;
  }

  /** Having signed a proposal, the signer can sign the prevote of the round. */
  lemma ProposalSigned(cfg: Config, env: Env, s: NodeState, block: Block)
    requires var p := OwnProposal(env, s, block); Sign(cfg, s.signer, ProposalRequest(cfg, p)).Some?
    ensures var p := OwnProposal(env, s, block);
      var s2 := s.(signer := Sign(cfg, s.signer, ProposalRequest(cfg, p)).value.1);
      IsValidator(cfg, s) ==> Able(cfg, s2, s.round, Privval.STEP_PREVOTE)
  {
    hide OwnProposal, IsHashEmpty;
    OwnHasBlock(env, s, block);
    var req := ProposalRequest(cfg, OwnProposal(env, s, block));
    Privval.CheckHRSMeaning(s.signer, req.height, req.round, req.step);
  }

  /** The prevote phase of a round answers by the proposal held in it. */
  lemma PhaseAnswers(cfg: Config, env: Env, s: NodeState, s2: NodeState, s': NodeState)
    requires PrevotePhase(cfg, env, s2, s') && HoldsProposal(s2)
    requires s2.sent == s.sent && s2.height == s.height && s2.vals == s.vals && s2.applied == s.applied
    requires s2.votes == s.votes
    requires PrevoteChoice(cfg, s2, s2.proposal) == PrevoteChoice(cfg, s, s2.proposal)
    ensures Answers(cfg, env, s, s2.round, s2.proposal, s')
  {
    hide Able, CastAt, PrecommitRule, PrevoteChoice, Majority;
    forall v | New(s, s', v) ensures VoteRule(cfg, env, s, s2.round, s2.proposal, s', v) { assert New(s2, s', v); }
  }

  // ----- Proposals received -----

  /** A proposal of the node's round, signed by the proposer of the round, with its proof and a valid block. */
  predicate AcceptableProposal(cfg: Config, env: Env, s: NodeState, q: Proposal) {
    var proposer := Rotation.ProposerForRound(s.vals, s.round);
    && q.height == s.height && q.round == s.round && q.proposer == proposer.name
    && |proposer.publicKey| == PUBLIC_KEY_SIZE && |q.signature| == SIGNATURE_SIZE
    && cfg.verifyProposal(proposer.publicKey, q.(signature := []), q.signature)
    && (q.polRound >= 0 ==> POLAccepted(cfg, s.vals, q))
    && env.blockValid
  }

  /** A proposal is recorded exactly when it is acceptable and the node has none; then the node prevotes. */
  ghost predicate ProposalResponse(cfg: Config, env: Env, s: NodeState, q: Proposal, s': NodeState) {
    if s.proposal.None? && AcceptableProposal(cfg, env, s, q) then
      if s.step.Rank() < PrevoteStep.Rank() then
        && Answers(cfg, env, s, s.round, Some(q), s')
        && (Able(cfg, s, s.round, Privval.STEP_PREVOTE) ==> CastAt(s', Prevote, s.height, s.round))
        && (s'.height == s.height && s'.halt == Running ==> s'.step.Rank() >= PrevoteStep.Rank())
      else s' == s.(proposal := Some(q), proposalBlock := Some(q.block))
    else s' == s
  }

  lemma ProposalResponds(cfg: Config, env: Env, s: NodeState, q: Proposal)
    requires s.halt == Running && Undecided(s.votes)
    ensures ProposalResponse(cfg, env, s, q, HandleProposal(cfg, env, s, q))
  {
    hide EnterPrevote, Undecided, POLAccepted, CastAt, Able, PrecommitRule, Rotation.ProposerForRound;
    var s2 := s.(proposal := Some(q), proposalBlock := Some(q.block));
    if s.proposal.None? && AcceptableProposal(cfg, env, s, q) {
      assert HandleProposal(cfg, env, s, q) == EnterPrevote(cfg, env, s2, s2.height, s2.round);
      if s.step.Rank() < PrevoteStep.Rank() {
        EnterPrevoteDoes(cfg, env, s2);
        SameAble(cfg, s, s2, s.round, Privval.STEP_PREVOTE);
        SameChoice(cfg, s, s2, Some(q));
        PhaseAnswers(cfg, env, s, s2, EnterPrevote(cfg, env, s2, s2.height, s2.round));
      } else {
        PrevoteOnce(cfg, env, s2);
      }
    }
  }

  lemma PrevoteOnce(cfg: Config, env: Env, s: NodeState)
    requires s.step.Rank() >= PrevoteStep.Rank()
    ensures EnterPrevote(cfg, env, s, s.height, s.round) == s
  {
    hide SignAndSendVote;
  }

  lemma OtherRoundIgnored(cfg: Config, env: Env, s: NodeState, round: int)
    requires s.round != round
    ensures EnterPrevote(cfg, env, s, s.height, round) == s && EnterPrecommit(cfg, env, s, s.height, round) == s
  {
    hide SignAndSendVote;
  }

  lemma PrecommitOnce(cfg: Config, env: Env, s: NodeState)
    requires s.step.Rank() >= PrecommitStep.Rank()
    ensures EnterPrecommit(cfg, env, s, s.height, s.round) == s
  {
    hide SignAndSendVote;
  }

  // ----- Later rounds -----

  /** Votes of quorum power were seen in a later round: the node joins it and votes there. */
  ghost predicate Joined(cfg: Config, env: Env, s: NodeState, round: int, s': NodeState) {
    && Answers(cfg, env, s, round, OwnOffer(cfg, env, s, round), s')
    && (s'.height == s.height && s'.halt == Running && Able(cfg, s, round, Privval.STEP_PREVOTE) ==>
          if Majority(s') then CastAt(s', Precommit, s.height, round) else CastAt(s', Prevote, s.height, round))
  }

  /** For precommits the node casts both its votes. */
  ghost predicate JoinedForPrecommits(cfg: Config, env: Env, s: NodeState, round: int, s': NodeState) {
    && Answers(cfg, env, s, round, OwnOffer(cfg, env, s, round), s')
    && (s'.height == s.height && s'.halt == Running ==>
          && s'.step.Rank() >= PrecommitStep.Rank()
          && (Able(cfg, s, round, Privval.STEP_PREVOTE) ==>
                CastAt(s', Prevote, s.height, round) && CastAt(s', Precommit, s.height, round)))
  }

  lemma AnswersThenPrecommit(cfg: Config, env: Env, s: NodeState, round: int, held: Option<Proposal>, s1: NodeState,
          s2: NodeState)
    requires Answers(cfg, env, s, round, held, s1) && s1.height == s.height && s1.halt == Running
    requires PrecommitPhase(cfg, env, s1, s2)
    ensures Answers(cfg, env, s, round, held, s2)
  {
    hide Able, CastAt, PrevoteChoice, LockRule;
    forall v | New(s, s2, v) ensures VoteRule(cfg, env, s, round, held, s2, v) {
      if New(s1, s2, v) {
        RuleCarries(cfg, env, s1, s2, v);
      } else {
        assert New(s, s1, v);
        SameRule(cfg, env, s1, s2, v);
      }
    }
  }

  lemma SameRule(cfg: Config, env: Env, s: NodeState, s': NodeState, v: Vote)
    requires PrecommitPhase(cfg, env, s, s') && (v.vtype == Precommit ==> PrecommitRule(cfg, s, v))
    ensures v.vtype == Precommit && s'.height == s.height ==> PrecommitRule(cfg, s', v)
    ensures v.vtype == Precommit && s'.height != s.height ==> CommitVote(cfg, s, v)
  {
    hide Able, CastAt, LockRule;
    if s'.height == s.height { assert forall h :: Backed(cfg, s, h) <==> Backed(cfg, s', h); }
  }

  lemma CastStays(s: NodeState, s': NodeState, vtype: VoteType, height: int, round: int)
    requires s.sent <= s'.sent && CastAt(s, vtype, height, round)
    ensures CastAt(s', vtype, height, round)
  {}

  lemma AbleLater(cfg: Config, s: NodeState, round: int)
    requires Able(cfg, s, round, Privval.STEP_PREVOTE)
    ensures IsValidator(cfg, s) && Able(cfg, s, round, Privval.STEP_PRECOMMIT)
  {}

  /** The skip to a round of which prevotes of quorum power were seen. */
  lemma SkipForPrevotes(cfg: Config, env: Env, s: NodeState, v: Vote)
    requires Recorded(s) && 0 <= s.round < v.round && v.round in s.votes.prevotes
    requires s.votes.prevotes[v.round].HasTwoThirdsAny()
    ensures Joined(cfg, env, s, v.round, HandlePrevote(cfg, env, s, v))
  {
    hide EnterNewRound, EnterPrevote, EnterPrecommit, Tally.HasTwoThirdsAny, Undecided, Able, CastAt, OwnOffer,
      Answers, PrevoteChoice, PrecommitPhase, PrevotePhase, WaitsForReason;
    var round, q := v.round, OwnOffer(cfg, env, s, v.round);
    EnterNewRoundDoes(cfg, env, s, round);
    SkipCalm(cfg, env, s, round);
    var s1 := EnterNewRound(cfg, env, s, s.height, round);
    var s' := HandlePrevote(cfg, env, s, v);
    NextOrSame(cfg, env, s, round, q, s1);
    if s1.halt != Running {
      assert s' == s1;
    } else if s1.height != s.height {
      OtherRoundIgnored(cfg, env, s1, round);
    } else if Majority(s1) {
      assert s' == EnterPrecommit(cfg, env, s1, s1.height, round);
      JoinByPrecommit(cfg, env, s, round, s1);
    } else {
      assert round in s1.votes.prevotes;
      assert s' == EnterPrevote(cfg, env, s1, s1.height, round);
      JoinByPrevote(cfg, env, s, round, s1);
    }
  }

  lemma NextOrSame(cfg: Config, env: Env, s: NodeState, round: int, held: Option<Proposal>, s': NodeState)
    requires Answers(cfg, env, s, round, held, s')
    ensures s'.height == s.height ==> s'.round == round && s.votes.prevotes.Keys <= s'.votes.prevotes.Keys
    ensures s'.height != s.height ==> s'.round == 0
  {}

  lemma JoinByPrecommit(cfg: Config, env: Env, s: NodeState, round: int, s1: NodeState)
    requires RoundEntered(cfg, env, s, round, s1) && s1.halt == Running && s1.height == s.height && Open(s1)
    requires Majority(s1)
    ensures Joined(cfg, env, s, round, EnterPrecommit(cfg, env, s1, s1.height, round))
  {
    hide EnterPrecommit, Undecided, Able, CastAt, OwnOffer, VoteRule, PrevoteChoice, WaitsForReason, LockRule,
      PrecommitRule;
    var s', q := EnterPrecommit(cfg, env, s1, s1.height, round), OwnOffer(cfg, env, s, round);
    if Able(cfg, s, round, Privval.STEP_PREVOTE) { AbleLater(cfg, s, round); }
    if s1.step.Rank() >= PrecommitStep.Rank() {
      PrecommitOnce(cfg, env, s1);
    } else {
      EnterPrecommitDoes(cfg, env, s1);
      AnswersThenPrecommit(cfg, env, s, round, q, s1, s');
      if q.None? { SameAble(cfg, s, s1, round, Privval.STEP_PRECOMMIT); }
      if CastAt(s1, Precommit, s.height, round) { CastStays(s1, s', Precommit, s.height, round); }
    }
  }

  lemma JoinByPrevote(cfg: Config, env: Env, s: NodeState, round: int, s1: NodeState)
    requires RoundEntered(cfg, env, s, round, s1) && s1.halt == Running && s1.height == s.height && Open(s1)
    requires !Majority(s1)
    ensures Joined(cfg, env, s, round, EnterPrevote(cfg, env, s1, s1.height, round))
  {
    hide EnterPrevote, Undecided, Able, CastAt, OwnOffer, VoteRule, PrevoteChoice, WaitsForReason, PrecommitRule;
    var s', q := EnterPrevote(cfg, env, s1, s1.height, round), OwnOffer(cfg, env, s, round);
    if Able(cfg, s, round, Privval.STEP_PREVOTE) { AbleLater(cfg, s, round); }
    if q.Some? {
      PrevoteOnce(cfg, env, s1);
    } else {
      EnterPrevoteDoes(cfg, env, s1);
      SameAble(cfg, s, s1, round, Privval.STEP_PREVOTE);
      SameChoice(cfg, s, s1, None);
      PhaseAnswers(cfg, env, s, s1, s');
    }
  }

  /** The skip to a round of which precommits of quorum power, but for no one block, were seen. */
  lemma SkipForPrecommits(cfg: Config, env: Env, s: NodeState, v: Vote)
    requires Recorded(s) && 0 <= s.round < v.round && v.round in s.votes.precommits
    requires s.votes.precommits[v.round].HasTwoThirdsAny()
    ensures JoinedForPrecommits(cfg, env, s, v.round, HandlePrecommit(cfg, env, s, v))
  {
    hide EnterNewRound, EnterPrevote, EnterPrecommit, EnterCommit, Tally.HasTwoThirdsAny, Able, CastAt, OwnOffer,
      Answers, PrevoteChoice, PrecommitPhase, PrevotePhase, WaitsForReason, JoinedForPrecommits, RoundEntered;
    var round, q := v.round, OwnOffer(cfg, env, s, v.round);
    assert !Decides(s.votes.precommits, round);
    EnterNewRoundDoes(cfg, env, s, round);
    SkipCalm(cfg, env, s, round);
    var s1 := EnterNewRound(cfg, env, s, s.height, round);
    var s' := HandlePrecommit(cfg, env, s, v);
    RoundIsNextOrSame(cfg, env, s, round, s1);
    if s1.halt != Running {
      assert s' == s1;
      StoppedJoins(cfg, env, s, round, s1);
    } else if s1.height != s.height {
      OtherRoundIgnored(cfg, env, s1, round);
      StoppedJoins(cfg, env, s, round, s1);
    } else {
      EnterPrevoteCalm(cfg, env, s1, s1.height, round);
      PrevoteThenPrecommit(cfg, env, s, round, s1);
      var s2 := EnterPrevote(cfg, env, s1, s1.height, round);
      assert s' == if s2.halt != Running then s2 else EnterPrecommit(cfg, env, s2, s2.height, round);
    }
  }

  lemma RoundIsNextOrSame(cfg: Config, env: Env, s: NodeState, round: int, s': NodeState)
    requires RoundEntered(cfg, env, s, round, s')
    ensures s'.height == s.height ==> s'.round == round
    ensures s'.height != s.height ==> s'.round == 0
  {
    hide OwnOffer, CastAt, Able, VoteRule;
  }

  lemma StoppedJoins(cfg: Config, env: Env, s: NodeState, round: int, s': NodeState)
    requires RoundEntered(cfg, env, s, round, s') && (s'.halt != Running || s'.height != s.height)
    ensures JoinedForPrecommits(cfg, env, s, round, s')
  {
    hide OwnOffer, CastAt, Able, VoteRule;
  }

  /** The node has answered in a round and either precommitted or can still do so. */
  ghost predicate Prevoted(cfg: Config, env: Env, s: NodeState, round: int, s': NodeState) {
    && Answers(cfg, env, s, round, OwnOffer(cfg, env, s, round), s')
    && (Able(cfg, s, round, Privval.STEP_PREVOTE) ==> CastAt(s', Prevote, s.height, round))
    && (s'.height == s.height && s'.halt == Running && Able(cfg, s, round, Privval.STEP_PREVOTE) ==>
          WentOn(cfg, s', s.height, round))
  }

  lemma PrevoteFirst(cfg: Config, env: Env, s: NodeState, round: int, s1: NodeState)
    requires RoundEntered(cfg, env, s, round, s1) && s1.halt == Running && s1.height == s.height && Open(s1)
    ensures Prevoted(cfg, env, s, round, EnterPrevote(cfg, env, s1, s1.height, round))
  {
    hide EnterPrevote, Undecided, Able, CastAt, OwnOffer, VoteRule, PrevoteChoice, WaitsForReason, PrecommitRule;
    var s', q := EnterPrevote(cfg, env, s1, s1.height, round), OwnOffer(cfg, env, s, round);
    if Able(cfg, s, round, Privval.STEP_PREVOTE) { AbleLater(cfg, s, round); }
    if q.Some? {
      PrevoteOnce(cfg, env, s1);
    } else {
      EnterPrevoteDoes(cfg, env, s1);
      SameAble(cfg, s, s1, round, Privval.STEP_PREVOTE);
      SameChoice(cfg, s, s1, None);
      PhaseAnswers(cfg, env, s, s1, s');
    }
  }

  lemma PrevoteThenPrecommit(cfg: Config, env: Env, s: NodeState, round: int, s1: NodeState)
    requires RoundEntered(cfg, env, s, round, s1) && s1.halt == Running && s1.height == s.height && Open(s1)
    requires round > 0
    requires Open(EnterPrevote(cfg, env, s1, s1.height, round))
    ensures var s2 := EnterPrevote(cfg, env, s1, s1.height, round);
      JoinedForPrecommits(cfg, env, s, round,
                          if s2.halt != Running then s2 else EnterPrecommit(cfg, env, s2, s2.height, round))
  {
    hide EnterPrevote, EnterPrecommit, Undecided, Able, CastAt, OwnOffer, VoteRule, PrevoteChoice, WaitsForReason,
      PrecommitRule, LockRule, RoundEntered;
    PrevoteFirst(cfg, env, s, round, s1);
    var s2, q := EnterPrevote(cfg, env, s1, s1.height, round), OwnOffer(cfg, env, s, round);
    if s2.halt == Running {
      var s' := EnterPrecommit(cfg, env, s2, s2.height, round);
      if s2.height != s.height {
        OtherRoundIgnored(cfg, env, s2, round);
      } else if s2.step.Rank() >= PrecommitStep.Rank() {
        PrecommitOnce(cfg, env, s2);
      } else {
        EnterPrecommitDoes(cfg, env, s2);
        AnswersThenPrecommit(cfg, env, s, round, q, s2, s');
        if CastAt(s2, Prevote, s.height, round) { CastStays(s2, s', Prevote, s.height, round); }
        if CastAt(s2, Precommit, s.height, round) { CastStays(s2, s', Precommit, s.height, round); }
      }
    }
  }

  // ----- Votes received -----

  /** The validators whose votes of a round are recorded have quorum power. */
  ghost predicate QuorumSeen(vals: ValidatorSet, votes: map<int, Tally>, round: int) {
    round in votes && IsQuorum(vals, votes[round].votes.Keys)
  }

  /** The response to a prevote that was just recorded in `s`. */
  ghost predicate PrevoteResponse(cfg: Config, env: Env, s: NodeState, round: int, s': NodeState) {
    if round > s.round && QuorumSeen(s.vals, s.votes.prevotes, round) then Joined(cfg, env, s, round, s')
    else if round == s.round && Majority(s) && s.step in {PrevoteStep, PrevoteWaitStep} then
      PrecommitPhase(cfg, env, s, s')
    else if round == s.round && s.step == PrevoteStep && !Majority(s)
            && QuorumSeen(s.vals, s.votes.prevotes, round) then
      s' == s.(step := PrevoteWaitStep)
    else s' == s
  }

  /** The response to a precommit that was just recorded in `s`; how a commit ends is in `EndsByHeld`. */
  ghost predicate PrecommitResponse(cfg: Config, env: Env, s: NodeState, round: int, s': NodeState) {
    if Decides(s.votes.precommits, round) then s'.sent == s.sent
    else if round > s.round && QuorumSeen(s.vals, s.votes.precommits, round) then
      JoinedForPrecommits(cfg, env, s, round, s')
    else if round == s.round && QuorumSeen(s.vals, s.votes.precommits, round) && s.step == PrecommitStep then
      s' == s.(step := PrecommitWaitStep)
    else s' == s
  }

  function WithVote(cfg: Config, env: Env, s: NodeState, v: Vote): NodeState {
    s.(votes := AddToHeight(cfg.verifyVote, env.now, s.votes, v).0)
  }

  predicate IsAdded(cfg: Config, env: Env, s: NodeState, v: Vote) {
    AddToHeight(cfg.verifyVote, env.now, s.votes, v).1 == Added
  }

  ghost predicate VoteResponse(cfg: Config, env: Env, s: NodeState, v: Vote, s': NodeState) {
    if !IsAdded(cfg, env, s, v) then s' == WithVote(cfg, env, s, v)
    else if v.vtype == Prevote then PrevoteResponse(cfg, env, WithVote(cfg, env, s, v), v.round, s')
    else PrecommitResponse(cfg, env, WithVote(cfg, env, s, v), v.round, s')
  }

  lemma QuorumIsPower(verify: Ed25519, hv: HeightVotes, round: int)
    requires hv.Valid(verify)
    ensures QuorumSeen(hv.vals, hv.prevotes, round) <==> round in hv.prevotes && hv.prevotes[round].HasTwoThirdsAny()
    ensures QuorumSeen(hv.vals, hv.precommits, round) <==>
      round in hv.precommits && hv.precommits[round].HasTwoThirdsAny()
  {
    hide Tally.Genuine, EntryExact, BlockKey, PowerOf;
    if round in hv.prevotes { assert hv.Holds(verify, hv.prevotes[round], Prevote, round); }
    if round in hv.precommits { assert hv.Holds(verify, hv.precommits[round], Precommit, round); }
  }

  lemma PrevoteResponds(cfg: Config, env: Env, s: NodeState, v: Vote)
    requires Recorded(s) && s.round >= 0 && s.votes.Valid(cfg.verifyVote) && s.votes.vals == s.vals
    requires v.round in s.votes.prevotes
    ensures PrevoteResponse(cfg, env, s, v.round, HandlePrevote(cfg, env, s, v))
  {
    hide EnterNewRound, EnterPrecommit, EnterPrevote, HeightVotes.Valid, Tally.HasTwoThirdsAny, Undecided,
      QuorumSeen, Joined, PrecommitPhase;
    QuorumIsPower(cfg.verifyVote, s.votes, v.round);
    if v.round > s.round && s.votes.prevotes[v.round].HasTwoThirdsAny() {
      SkipForPrevotes(cfg, env, s, v);
    } else if v.round == s.round && Majority(s) && s.step in {PrevoteStep, PrevoteWaitStep} {
      EnterPrecommitDoes(cfg, env, s);
    }
  }

  lemma PrecommitResponds(cfg: Config, env: Env, s: NodeState, v: Vote)
    requires Recorded(s) && s.round >= 0 && s.votes.Valid(cfg.verifyVote) && s.votes.vals == s.vals
    ensures PrecommitResponse(cfg, env, s, v.round, HandlePrecommit(cfg, env, s, v))
  {
    hide EnterNewRound, EnterPrecommit, EnterPrevote, EnterCommit, HeightVotes.Valid, Tally.HasTwoThirdsAny,
      QuorumSeen, JoinedForPrecommits, PrecommitPhase;
    QuorumIsPower(cfg.verifyVote, s.votes, v.round);
    assert !Decides(s.votes.precommits, v.round);
    if v.round > s.round && v.round in s.votes.precommits && s.votes.precommits[v.round].HasTwoThirdsAny() {
      SkipForPrecommits(cfg, env, s, v);
    }
  }

  lemma CommitSendsNothing(cfg: Config, env: Env, s: NodeState, v: Vote)
    requires Decides(s.votes.precommits, v.round)
    ensures HandlePrecommit(cfg, env, s, v).sent == s.sent
  {
    hide CommitRound, EnterNewRound, EnterPrecommit, EnterPrevote, Tally.HasTwoThirdsAny, MakeCommit;
  }

  lemma VoteResponds(cfg: Config, env: Env, s: NodeState, v: Vote)
    requires s.halt == Running && Open(s) && s.round >= 0 && s.votes.Valid(cfg.verifyVote) && s.votes.vals == s.vals
    requires WithVote(cfg, env, s, v).votes.Valid(cfg.verifyVote)
    ensures VoteResponse(cfg, env, s, v, HandleVote(cfg, env, s, v))
  {
    hide AddToHeight, HandlePrevote, HandlePrecommit, HeightVotes.Valid, Tally.HasTwoThirdsAny, Undecided,
      OnlyDecision, BlockKey, PrevoteResponse, PrecommitResponse;
    var s1 := WithVote(cfg, env, s, v);
    AddedVote(cfg.verifyVote, env.now, s.votes, v);
    PowerGrows(cfg.verifyVote, env.now, s.votes, v);
    VoteKind(cfg, env, s, v);
    if IsAdded(cfg, env, s, v) {
      if v.vtype == Prevote {
        PrevoteResponds(cfg, env, s1, v);
      } else if Undecided(s1.votes) {
        PrecommitResponds(cfg, env, s1, v);
      } else {
        DecidedResponds(cfg, env, s1, v, BlockKey(v.blockHash).value);
      }
    }
  }

  lemma DecidedResponds(cfg: Config, env: Env, s: NodeState, v: Vote, b: Bytes)
    requires OnlyDecision(s.votes.precommits, v.round, b)
    ensures PrecommitResponse(cfg, env, s, v.round, HandlePrecommit(cfg, env, s, v))
  {
    hide HandlePrecommit, JoinedForPrecommits;
    CommitSendsNothing(cfg, env, s, v);
  }

  lemma VoteKind(cfg: Config, env: Env, s: NodeState, v: Vote)
    ensures IsAdded(cfg, env, s, v) ==> v.vtype == Prevote || v.vtype == Precommit
    ensures WithVote(cfg, env, s, v).votes.vals == s.votes.vals
    ensures IsAdded(cfg, env, s, v) && v.vtype == Prevote ==> v.round in WithVote(cfg, env, s, v).votes.prevotes
  {
    hide AddVote;
  }

  // ----- Timeouts -----

  function NextRound(s: NodeState): int { if s.round >= MAX_INT32 then MAX_INT32 else s.round + 1 }

  /** A timeout of this height, round and step, or a later round, lets the node go on; others do nothing. */
  ghost predicate TimeoutResponse(cfg: Config, env: Env, s: NodeState, height: int, round: int, step: RoundStep,
          s': NodeState) {
    if height != s.height || round < s.round then s' == s
    else if step == ProposeStep && s.step == ProposeStep then PrevotePhase(cfg, env, s, s')
    else if step == PrevoteWaitStep && s.step == PrevoteWaitStep then PrecommitPhase(cfg, env, s, s')
    else if step == PrecommitWaitStep && s.step == PrecommitWaitStep && NextRound(s) >= s.round then
      RoundEntered(cfg, env, s, NextRound(s), s')
    else if step == CommitStep && s.round <= 0 then RoundEntered(cfg, env, s, 0, s')
    else s' == s
  }

  lemma TimeoutResponds(cfg: Config, env: Env, s: NodeState, height: int, round: int, step: RoundStep)
    requires s.halt == Running && Undecided(s.votes) && HoldsProposal(s)
    ensures TimeoutResponse(cfg, env, s, height, round, step, HandleTimeout(cfg, env, s, height, round, step))
  {
    hide EnterPrevote, EnterPrecommit, EnterNewRound, Undecided, PrevotePhase, PrecommitPhase, RoundEntered;
    if s.step == ProposeStep { EnterPrevoteDoes(cfg, env, s); }
    if s.step == PrevoteWaitStep { EnterPrecommitDoes(cfg, env, s); }
    if NextRound(s) >= s.round { EnterNewRoundDoes(cfg, env, s, NextRound(s)); }
    if s.round <= 0 { EnterNewRoundDoes(cfg, env, s, 0); }
    if NextRound(s) < s.round { PastRound(cfg, env, s, NextRound(s)); }
    if 0 < s.round { PastRound(cfg, env, s, 0); }
  }

  lemma PastRound(cfg: Config, env: Env, s: NodeState, round: int)
    requires round < s.round
    ensures EnterNewRound(cfg, env, s, s.height, round) == s
  {
    hide CreateProposal;
  }

  // ----- Runs -----

  ghost predicate Response(cfg: Config, env: Env, s: NodeState, e: Event, s': NodeState) {
    match e
    case ProposalEvent(q) => ProposalResponse(cfg, env, s, q, s')
    case VoteEvent(v) => VoteResponse(cfg, env, s, v, s')
    case TimeoutEvent(height, round, step) => TimeoutResponse(cfg, env, s, height, round, step, s')
  }

  lemma HandleResponds(cfg: Config, env: Env, known: set<Vote>, s: NodeState, e: Event)
    requires GoodSchedule(cfg.vals) && NodeInv(cfg, known, s) && s.halt == Running && Open(s)
    ensures Response(cfg, env, s, e, Handle(cfg, env, s, e))
  {
    hide HandleProposal, HandleVote, HandleTimeout, ProposalResponse, VoteResponse, TimeoutResponse, Past,
      LockJustified, PrecommitsRecorded, LockHeld, HeightVotes.Valid, HeightVotes.Within, Undecided, WaitsForReason;
    match e
    case ProposalEvent(q) => ProposalResponds(cfg, env, s, q);
    case VoteEvent(v) =>
      AddedKeepsValid(cfg, env, s, v);
      VoteResponds(cfg, env, s, v);
    case TimeoutEvent(height, round, step) => TimeoutResponds(cfg, env, s, height, round, step);
  }

  lemma AddedKeepsValid(cfg: Config, env: Env, s: NodeState, v: Vote)
    requires s.votes.Valid(cfg.verifyVote)
    ensures WithVote(cfg, env, s, v).votes.Valid(cfg.verifyVote)
  {
    hide AddToHeight, HeightVotes.Valid, HeightVotes.Within, Authentic;
    var known := AllVotes(s.votes) + {v};
    assert s.votes.Within(known) by { AllVotesHold(s.votes, known); }
    AddToHeightCorrect(cfg.verifyVote, env.now, s.votes, v, known);
  }

  /** Every vote recorded at a height. */
  ghost function AllVotes(hv: HeightVotes): set<Vote> {
    (set r, i | r in hv.prevotes && i in hv.prevotes[r].votes :: hv.prevotes[r].votes[i])
    + (set r, i | r in hv.precommits && i in hv.precommits[r].votes :: hv.precommits[r].votes[i])
  }

  lemma AllVotesHold(hv: HeightVotes, known: set<Vote>)
    requires AllVotes(hv) <= known
    ensures hv.Within(known)
  {}

  /** In every run, a running node responds to every event as its state and the event say. */
  lemma RunResponds(p: Protocol, run: seq<Net>, i: nat, key: Bytes, env: Env, e: Event)
    requires GoodSchedule(p.vals) && IsRun(p, run) && i < |run| && key in run[i].nodes
    requires run[i].nodes[key].halt == Running
    ensures Response(ConfigOf(p, key), env, run[i].nodes[key], e, Perform(p, run[i], Deliver(key, env, e)).nodes[key])
  {
    hide IsRun, GoodSchedule, NodeInv, Handle, Open, Response;
    RunInv(p, run, i);
    RunOpen(p, run, i, key);
    HandleResponds(ConfigOf(p, key), env, run[i].soup, run[i].nodes[key], e);
  }
}
