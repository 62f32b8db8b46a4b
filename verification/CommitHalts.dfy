/**
 * When a node waits and how a commit ends. A running node has recorded no precommit majority for a block
 * and waits only for a reason; it applies a committed block exactly when it holds it, and stops otherwise.
 */
module CommitHalts {
  import opened Types
  import opened Validators
  import opened VoteSets
  import opened Commits
  import opened Node
  import opened NodeInvariants
  import opened NodeSafety
  import opened Network
  import Rotation

  /** The block a node would apply: the locked one, else the proposed one. */
  function Held(s: NodeState): Option<Block> {
    if s.lockedBlock.Some? then s.lockedBlock else s.proposalBlock
  }

  /** The node holds the block with this hash. */
  predicate Holding(cfg: Config, s: NodeState, b: Bytes) {
    Held(s).Some? && BlockHash(cfg, Held(s).value) == b
  }

  /** The recorded precommits of a round have a majority for a block. */
  predicate Decides(precommits: map<int, Tally>, round: int) {
    round in precommits && precommits[round].maj23.Some? && precommits[round].maj23.value.Some?
  }

  ghost predicate Undecided(hv: HeightVotes) {
    forall r :: !Decides(hv.precommits, r)
  }

  /** Only round `r` decides, for block `b`. */
  ghost predicate OnlyDecision(precommits: map<int, Tally>, r: int, b: Bytes) {
    && r in precommits && precommits[r].maj23 == Some(Some(b)) && precommits[r].vtype == Precommit
    && (forall q :: q != r ==> !Decides(precommits, q))
  }

  /** Votes of quorum power are in, but no majority among the prevotes. */
  predicate SplitPrevotes(s: NodeState) {
    s.round in s.votes.prevotes && s.votes.prevotes[s.round].HasTwoThirdsAny() && s.votes.prevotes[s.round].maj23.None?
  }

  predicate EnoughPrecommits(s: NodeState) {
    s.round in s.votes.precommits && s.votes.precommits[s.round].HasTwoThirdsAny()
  }

  predicate WaitsForReason(s: NodeState) {
    && (s.step == PrevoteWaitStep ==> SplitPrevotes(s))
    && (s.step == PrecommitWaitStep ==> EnoughPrecommits(s))
  }

  /** What holds of a running node between events. */
  ghost predicate Open(s: NodeState) {
    s.halt == Running ==> s.step != CommitStep && Undecided(s.votes) && WaitsForReason(s)
  }

  // ----- Recording a vote -----

  lemma AddedVote(verify: Ed25519, now: int, hv: HeightVotes, v: Vote)
    requires Undecided(hv)
    ensures var (hv', r) := AddToHeight(verify, now, hv, v);
      && (v.vtype != Precommit ==> hv'.precommits == hv.precommits)
      && (v.vtype != Prevote ==> hv'.prevotes == hv.prevotes)
      && (Undecided(hv') || (r == Added && v.vtype == Precommit && BlockKey(v.blockHash).Some?
                             && OnlyDecision(hv'.precommits, v.round, BlockKey(v.blockHash).value)))
  {
    hide VerifySignature, BlockKey;
    var (hv', r) := AddToHeight(verify, now, hv, v);
    forall q | q != v.round ensures !Decides(hv'.precommits, q) { assert !Decides(hv.precommits, q); }
    assert !Decides(hv.precommits, v.round);
  }

  /** Recorded power only grows. */
  lemma PowerGrows(verify: Ed25519, now: int, hv: HeightVotes, v: Vote)
    requires hv.Valid(verify)
    ensures var hv' := AddToHeight(verify, now, hv, v).0;
      && (forall r :: r in hv.prevotes && hv.prevotes[r].HasTwoThirdsAny() ==>
            r in hv'.prevotes && hv'.prevotes[r].HasTwoThirdsAny())
      && (forall r :: r in hv.precommits && hv.precommits[r].HasTwoThirdsAny() ==>
            r in hv'.precommits && hv'.precommits[r].HasTwoThirdsAny())
  {
    hide AddVote, Tally.Valid, Tally.Genuine, Tally.HasTwoThirdsAny;
    if v.round in hv.prevotes && v.vtype == Prevote {
      assert hv.Holds(verify, hv.prevotes[v.round], Prevote, v.round);
      if hv.prevotes[v.round].HasTwoThirdsAny() { TallyGrows(verify, now, hv.prevotes[v.round], v); }
    } else if v.round in hv.precommits && v.vtype == Precommit {
      assert hv.Holds(verify, hv.precommits[v.round], Precommit, v.round);
      if hv.precommits[v.round].HasTwoThirdsAny() { TallyGrows(verify, now, hv.precommits[v.round], v); }
    }
  }

  lemma TallyGrows(verify: Ed25519, now: int, t: Tally, v: Vote)
    requires t.Valid() && t.HasTwoThirdsAny()
    ensures AddVote(verify, now, t, v).0.HasTwoThirdsAny()
  {
    hide VerifySignature, BlockKey, IsQuorum, EntryExact;
  }

  // ----- Committing -----

  lemma {:induction false} CommitRoundIsOnly(precommits: map<int, Tally>, round: int, r: int, b: Bytes)
    requires OnlyDecision(precommits, r, b) && r <= round
    ensures CommitRound(precommits, round) == if r >= 0 then Some(r) else None
    decreases round - r
  {
    hide CommitSigs;
    if r < round {
      assert !Decides(precommits, round);
      CommitRoundIsOnly(precommits, round - 1, r, b);
    }
  }

  /** A commit of the block hashing to `b` is applied or stops the node, by what the node holds. */
  ghost predicate EndsByHeld(cfg: Config, env: Env, s: NodeState, s': NodeState, b: Bytes) {
    && (s'.halt == NoBlock <==> Held(s).None?)
    && (s'.halt == HashMismatch <==> Held(s).Some? && !Holding(cfg, s, b))
    && (s'.halt == ApplyFailed <==> Holding(cfg, s, b) && !env.applyOk)
    && (s'.halt == Running <==> Holding(cfg, s, b) && env.applyOk)
    && s.applied <= s'.applied && |s'.applied| == |s.applied| + (if Holding(cfg, s, b) then 1 else 0)
    && (Holding(cfg, s, b) ==>
        s'.applied[|s.applied|].height == s.height && s'.applied[|s.applied|].block == Held(s).value)
    && (s'.halt == Running ==>
        && s'.height == s.height + 1 && s'.round == 0 && s'.vals == cfg.vals(s.height + 1)
        && s'.lastCommit == Some(s'.applied[|s.applied|].commit) && s'.votes == NoVotes(s'.height, s'.vals)
        && s'.proposal == None && s'.lockedBlock == None && s'.validBlock == None)
  }

  lemma EnterCommitEnds(cfg: Config, env: Env, s: NodeState, r: int, b: Bytes)
    requires s.halt == Running && s.step != CommitStep && OnlyDecision(s.votes.precommits, r, b) && r <= s.round
    ensures var s' := EnterCommit(cfg, env, s, s.height);
      && Open(s') && s'.step in {CommitStep, NewHeightStep}
      && (if r >= 0 then EndsByHeld(cfg, env, s, s', b) else s'.halt == NoCommitFound && s'.applied == s.applied)
  {
    hide CommitRound, CommitSigs;
    CommitRoundIsOnly(s.votes.precommits, s.round, r, b);
  }

  // ----- Own votes -----

  /** A transition that stops for want of the right block nowhere. */
  ghost predicate Calm(env: Env, s: NodeState, s': NodeState) {
    && Open(s') && s'.halt != NoBlock && s'.halt != HashMismatch && |s.applied| <= |s'.applied|
    && (s'.halt == ApplyFailed ==> !env.applyOk && |s.applied| < |s'.applied|)
  }

  /** A hash to precommit comes with the lock on its block. */
  predicate LockedFor(cfg: Config, s: NodeState, hash: Option<Bytes>) {
    hash.Some? ==> s.lockedBlock.Some? && BlockHash(cfg, s.lockedBlock.value) == hash.value
  }

  lemma CastOutcome(cfg: Config, env: Env, s: NodeState, vtype: VoteType, hash: Option<Bytes>)
    requires s.halt == Running && Cast(cfg, env, s, vtype, hash).Some?
    ensures var (s1, v) := Cast(cfg, env, s, vtype, hash).value;
      var (votes, added) := AddToHeight(cfg.verifyVote, env.now, s.votes, v);
      && v.vtype == vtype && v.round == s.round && v.blockHash == hash
      && s1 == s.(signer := s1.signer, sent := s1.sent, votes := votes, halt := s1.halt)
      && s1.halt == if added == Added then Running else OwnVoteRejected
  {
    hide AddToHeight, Sign, OwnIndex;
  }

  lemma OwnPrecommitCalm(cfg: Config, env: Env, s: NodeState, hash: Option<Bytes>)
    requires s.halt == Running && s.step == PrecommitStep && Undecided(s.votes) && LockedFor(cfg, s, hash)
    ensures var s' := SignAndSendVote(cfg, env, s, Precommit, hash);
      Calm(env, s, s') && s'.step != PrevoteWaitStep
  {
    hide AddToHeight, Cast, EnterCommit, EnterNewRound, EnterPrevote, EnterPrecommit, Tally.HasTwoThirdsAny, Undecided,
      OnlyDecision, IsHashEmpty;
    var cast := Cast(cfg, env, s, Precommit, hash);
    if cast.Some? {
      CastOutcome(cfg, env, s, Precommit, hash);
      var (s1, v) := cast.value;
      AddedVote(cfg.verifyVote, env.now, s.votes, v);
      if s1.halt == Running { OwnPrecommitHandled(cfg, env, s1, v); }
    }
  }

  lemma OwnPrecommitHandled(cfg: Config, env: Env, s: NodeState, v: Vote)
    requires s.halt == Running && s.step == PrecommitStep && v.round == s.round && LockedFor(cfg, s, v.blockHash)
    requires Undecided(s.votes)
      || (BlockKey(v.blockHash).Some? && OnlyDecision(s.votes.precommits, v.round, BlockKey(v.blockHash).value))
    ensures var s' := HandlePrecommit(cfg, env, s, v); Calm(env, s, s') && s'.step != PrevoteWaitStep
  {
    hide EnterCommit, EnterNewRound, EnterPrevote, EnterPrecommit, Tally.HasTwoThirdsAny, IsHashEmpty;
    if Undecided(s.votes) {
      assert !Decides(s.votes.precommits, v.round);
    } else {
      EnterCommitEnds(cfg, env, s, v.round, v.blockHash.value);
    }
  }

  lemma EnterPrecommitCalm(cfg: Config, env: Env, s: NodeState, height: int, round: int)
    requires s.halt == Running && Open(s)
    ensures var s' := EnterPrecommit(cfg, env, s, height, round);
      Calm(env, s, s') && (s' == s || s'.step != PrevoteWaitStep)
  {
    hide SignAndSendVote, Undecided, Tally.HasTwoThirdsAny;
    var (hash, s1) := DecidePrecommit(cfg, s.(step := PrecommitStep));
    OwnPrecommitCalm(cfg, env, s1, hash);
  }

  lemma OwnPrevoteCalm(cfg: Config, env: Env, s: NodeState, hash: Option<Bytes>)
    requires s.halt == Running && s.step == PrevoteStep && Undecided(s.votes)
    ensures Calm(env, s, SignAndSendVote(cfg, env, s, Prevote, hash))
  {
    hide AddToHeight, Cast, EnterNewRound, EnterPrecommit, Tally.HasTwoThirdsAny, Undecided, OnlyDecision;
    var cast := Cast(cfg, env, s, Prevote, hash);
    if cast.Some? {
      CastOutcome(cfg, env, s, Prevote, hash);
      var (s1, v) := cast.value;
      AddedVote(cfg.verifyVote, env.now, s.votes, v);
      if s1.halt == Running { EnterPrecommitCalm(cfg, env, s1, s1.height, s1.round); }
    }
  }

  lemma EnterPrevoteCalm(cfg: Config, env: Env, s: NodeState, height: int, round: int)
    requires s.halt == Running && Open(s)
    ensures Calm(env, s, EnterPrevote(cfg, env, s, height, round))
  {
    hide SignAndSendVote, Undecided, DecidePrevote, Tally.HasTwoThirdsAny;
    var (hash, unlock) := DecidePrevote(cfg, s);
    OwnPrevoteCalm(cfg, env, (if unlock then Unlocked(s) else s).(step := PrevoteStep), hash);
  }

  lemma EnterNewRoundCalm(cfg: Config, env: Env, s: NodeState, height: int, round: int)
    requires s.halt == Running && Open(s)
    ensures Calm(env, s, EnterNewRound(cfg, env, s, height, round))
  {
    hide EnterPrevote, Undecided, Sign, OwnProposal, Tally.HasTwoThirdsAny;
    var s1 := RoundStart(s, round);
    var block := BlockToPropose(env, s1);
    if block.Some? {
      var p := OwnProposal(env, s1, block.value);
      var signed := Sign(cfg, s1.signer, ProposalRequest(cfg, p));
      if signed.Some? {
        EnterPrevoteCalm(cfg, env, s1.(signer := signed.value.1, proposal := Some(p.(signature := signed.value.0)),
                                       proposalBlock := Some(block.value)), s1.height, s1.round);
      }
    }
  }

  // ----- Votes of others -----

  /** Rounds are skipped calmly: two transitions after one another. */
  lemma CalmThen(env: Env, s: NodeState, s1: NodeState, s2: NodeState)
    requires Calm(env, s, s1) && Calm(env, s1, s2)
    ensures Calm(env, s, s2)
  {
    hide Open;
  }

  /** The node before it acts on a vote just recorded. */
  ghost predicate Recorded(s: NodeState) {
    s.halt == Running && s.step != CommitStep && Undecided(s.votes)
    && (s.step == PrevoteWaitStep ==> s.round in s.votes.prevotes && s.votes.prevotes[s.round].HasTwoThirdsAny())
    && (s.step == PrecommitWaitStep ==> EnoughPrecommits(s))
  }

  lemma HandlePrevoteCalm(cfg: Config, env: Env, s: NodeState, v: Vote)
    requires Recorded(s) && v.round in s.votes.prevotes
    requires v.round != s.round && s.step == PrevoteWaitStep ==> s.votes.prevotes[s.round].maj23.None?
    ensures Calm(env, s, HandlePrevote(cfg, env, s, v))
  {
    hide EnterNewRound, EnterPrevote, EnterPrecommit, Tally.HasTwoThirdsAny, Undecided;
    if v.round > s.round && s.votes.prevotes[v.round].HasTwoThirdsAny() {
      SkipCalm(cfg, env, s, v.round);
      var s1 := EnterNewRound(cfg, env, s, s.height, v.round);
      if s1.halt == Running {
        EnterPrecommitCalm(cfg, env, s1, s1.height, v.round);
        EnterPrevoteCalm(cfg, env, s1, s1.height, v.round);
        CalmThen(env, s, s1, HandlePrevote(cfg, env, s, v));
      }
    } else if v.round == s.round && s.votes.prevotes[v.round].maj23.Some? {
      if s.step in {PrevoteStep, PrevoteWaitStep} { PrecommitFromPrevote(cfg, env, s); }
    }
  }

  /** A new round does not ask why the node waited. */
  lemma SkipCalm(cfg: Config, env: Env, s: NodeState, round: int)
    requires Recorded(s) && round > s.round
    ensures Calm(env, s, EnterNewRound(cfg, env, s, s.height, round))
  {
    hide EnterNewRound, Undecided, Tally.HasTwoThirdsAny;
    EnterNewRoundCalm(cfg, env, s.(step := NewRoundStep), s.height, round);
    NewRoundForgetsStep(cfg, env, s, round);
  }

  lemma NewRoundForgetsStep(cfg: Config, env: Env, s: NodeState, round: int)
    requires round > s.round
    ensures EnterNewRound(cfg, env, s, s.height, round)
      == EnterNewRound(cfg, env, s.(step := NewRoundStep), s.height, round)
  {
    hide CreateProposal;
    assert RoundStart(s, round) == RoundStart(s.(step := NewRoundStep), round);
  }

  lemma PrecommitFromPrevote(cfg: Config, env: Env, s: NodeState)
    requires Recorded(s) && s.step in {PrevoteStep, PrevoteWaitStep}
    ensures var s' := EnterPrecommit(cfg, env, s, s.height, s.round); Calm(env, s, s') && s'.step != PrevoteWaitStep
  {
    hide SignAndSendVote, Undecided, Tally.HasTwoThirdsAny;
    var (hash, s1) := DecidePrecommit(cfg, s.(step := PrecommitStep));
    OwnPrecommitCalm(cfg, env, s1, hash);
  }

  lemma HandlePrecommitCalm(cfg: Config, env: Env, s: NodeState, v: Vote)
    requires Recorded(s) && WaitsForReason(s)
    ensures Calm(env, s, HandlePrecommit(cfg, env, s, v))
  {
    hide EnterNewRound, EnterPrevote, EnterPrecommit, EnterCommit, Tally.HasTwoThirdsAny;
    assert !Decides(s.votes.precommits, v.round);
    if v.round in s.votes.precommits && v.round > s.round && s.votes.precommits[v.round].HasTwoThirdsAny() {
      SkipCalm(cfg, env, s, v.round);
      var s1 := EnterNewRound(cfg, env, s, s.height, v.round);
      if s1.halt == Running {
        EnterPrevoteCalm(cfg, env, s1, s1.height, v.round);
        var s2 := EnterPrevote(cfg, env, s1, s1.height, v.round);
        CalmThen(env, s, s1, s2);
        if s2.halt == Running {
          EnterPrecommitCalm(cfg, env, s2, s2.height, v.round);
          CalmThen(env, s, s2, EnterPrecommit(cfg, env, s2, s2.height, v.round));
        }
      }
    }
  }

  // ----- Events -----

  /** The event is a precommit that the node records and that completes a quorum for a block. */
  ghost predicate Completes(cfg: Config, env: Env, s: NodeState, e: Event, b: Bytes) {
    e.VoteEvent? && e.vote.vtype == Precommit && e.vote.round >= 0 &&
    var (votes, added) := AddToHeight(cfg.verifyVote, env.now, s.votes, e.vote);
    added == Added && e.vote.round in votes.precommits && votes.precommits[e.vote.round].maj23 == Some(Some(b))
  }

  /** How an event may end: a commit it completes ends by the held block, and nothing else stops for a block. */
  ghost predicate Ends(cfg: Config, env: Env, s: NodeState, e: Event, s': NodeState) {
    && Open(s')
    && (forall b :: Completes(cfg, env, s, e, b) ==> EndsByHeld(cfg, env, s, s', b))
    && (Calm(env, s, s') || exists b :: Completes(cfg, env, s, e, b))
  }

  lemma HandleVoteEnds(cfg: Config, env: Env, s: NodeState, v: Vote)
    requires s.halt == Running && Open(s) && s.votes.Valid(cfg.verifyVote)
    ensures Ends(cfg, env, s, VoteEvent(v), HandleVote(cfg, env, s, v))
  {
    hide AddToHeight, HandlePrevote, HandlePrecommit, HeightVotes.Valid, Tally.HasTwoThirdsAny, Undecided, OnlyDecision,
      BlockKey, EndsByHeld;
    var (votes, added) := AddToHeight(cfg.verifyVote, env.now, s.votes, v);
    var s1 := s.(votes := votes);
    AddedVote(cfg.verifyVote, env.now, s.votes, v);
    PowerGrows(cfg.verifyVote, env.now, s.votes, v);
    if Undecided(votes) {
      NotCompleted(cfg, env, s, v);
      RecordedCalm(cfg, env, s, s1, v, added);
    } else {
      CompletedEnds(cfg, env, s, s1, v, BlockKey(v.blockHash).value);
    }
  }

  lemma NotCompleted(cfg: Config, env: Env, s: NodeState, v: Vote)
    requires Undecided(AddToHeight(cfg.verifyVote, env.now, s.votes, v).0)
    ensures forall b :: !Completes(cfg, env, s, VoteEvent(v), b)
  {
    hide AddToHeight;
    assert !Decides(AddToHeight(cfg.verifyVote, env.now, s.votes, v).0.precommits, v.round);
  }

  lemma RecordedCalm(cfg: Config, env: Env, s: NodeState, s1: NodeState, v: Vote, added: AddResult)
    requires s.halt == Running && Open(s) && s1 == s.(votes := s1.votes) && Undecided(s1.votes)
    requires (s1.votes, added) == AddToHeight(cfg.verifyVote, env.now, s.votes, v)
    requires s.step == PrevoteWaitStep ==>
      s.round in s1.votes.prevotes && s1.votes.prevotes[s.round].HasTwoThirdsAny()
    requires s.step == PrecommitWaitStep ==> EnoughPrecommits(s1)
    ensures Calm(env, s, HandleVote(cfg, env, s, v))
  {
    hide HandlePrevote, HandlePrecommit, AddVote, Tally.HasTwoThirdsAny, Undecided;
    if added != Added {
      RefusedChangesNothing(cfg.verifyVote, env.now, s.votes, v);
    } else if v.vtype == Prevote {
      HandlePrevoteCalm(cfg, env, s1, v);
    } else {
      HandlePrecommitCalm(cfg, env, s1, v);
    }
  }

  /** A vote that is not added changes no vote set, but may leave an empty one behind. */
  lemma RefusedChangesNothing(verify: Ed25519, now: int, hv: HeightVotes, v: Vote)
    requires AddToHeight(verify, now, hv, v).1 != Added
    ensures var hv' := AddToHeight(verify, now, hv, v).0;
      && (forall r :: r in hv.prevotes ==> r in hv'.prevotes && hv'.prevotes[r] == hv.prevotes[r])
      && (forall r :: r in hv.precommits ==> r in hv'.precommits && hv'.precommits[r] == hv.precommits[r])
  {
    hide VerifySignature, BlockKey, Record;
  }

  lemma CompletedEnds(cfg: Config, env: Env, s: NodeState, s1: NodeState, v: Vote, b: Bytes)
    requires s.halt == Running && s.step != CommitStep && s1 == s.(votes := s1.votes) && v.vtype == Precommit
    requires (s1.votes, Added) == AddToHeight(cfg.verifyVote, env.now, s.votes, v)
    requires OnlyDecision(s1.votes.precommits, v.round, b)
    ensures Ends(cfg, env, s, VoteEvent(v), HandleVote(cfg, env, s, v))
  {
    hide AddToHeight, EnterCommit, EnterNewRound, EnterPrevote, EnterPrecommit, HandlePrevote, Tally.HasTwoThirdsAny;
    var s2 := if v.round > s.round then s1.(round := v.round) else s1;
    EnterCommitEnds(cfg, env, s2, v.round, b);
    var s' := HandleVote(cfg, env, s, v);
    assert s' == EnterCommit(cfg, env, s2, s2.height);
    assert v.round >= 0 ==> Completes(cfg, env, s, VoteEvent(v), b);
  }

  lemma HandleEnds(cfg: Config, env: Env, s: NodeState, e: Event)
    requires Open(s) && (s.halt == Running ==> s.votes.Valid(cfg.verifyVote))
    ensures Open(Handle(cfg, env, s, e))
    ensures s.halt == Running ==> Ends(cfg, env, s, e, Handle(cfg, env, s, e))
  {
    hide HandleVote, EnterPrevote, EnterPrecommit, EnterNewRound, Undecided, POLAccepted, Tally.HasTwoThirdsAny,
      HeightVotes.Valid, Rotation.ProposerForRound, WaitsForReason, EndsByHeld;
    if s.halt == Running {
      match e
      case VoteEvent(v) => HandleVoteEnds(cfg, env, s, v);
      case ProposalEvent(p) => ProposalCalm(cfg, env, s, p);
      case TimeoutEvent(height, round, step) => TimeoutCalm(cfg, env, s, height, round, step);
    }
  }

  lemma ProposalCalm(cfg: Config, env: Env, s: NodeState, p: Proposal)
    requires s.halt == Running && Open(s)
    ensures Calm(env, s, HandleProposal(cfg, env, s, p))
  {
    hide EnterPrevote, Undecided, POLAccepted, Tally.HasTwoThirdsAny, Rotation.ProposerForRound;
    var s1 := s.(proposal := Some(p), proposalBlock := Some(p.block));
    EnterPrevoteCalm(cfg, env, s1, s1.height, s1.round);
  }

  lemma TimeoutCalm(cfg: Config, env: Env, s: NodeState, height: int, round: int, step: RoundStep)
    requires s.halt == Running && Open(s)
    ensures Calm(env, s, HandleTimeout(cfg, env, s, height, round, step))
  {
    hide EnterPrevote, EnterPrecommit, EnterNewRound, Undecided, Tally.HasTwoThirdsAny;
    EnterPrevoteCalm(cfg, env, s, s.height, s.round);
    EnterPrecommitCalm(cfg, env, s, s.height, s.round);
    EnterNewRoundCalm(cfg, env, s, s.height, if s.round >= MAX_INT32 then MAX_INT32 else s.round + 1);
    EnterNewRoundCalm(cfg, env, s, s.height, 0);
  }

  // ----- Runs -----

  lemma StartOpen(cfg: Config, env: Env, height: int, lastCommit: Option<Commit>)
    ensures Open(Start(cfg, env, height, lastCommit))
  {
    hide EnterNewRound;
    EnterNewRoundCalm(cfg, env, NewNode(cfg, height, lastCommit), height, 0);
  }

  lemma {:induction false} RunOpen(p: Protocol, run: seq<Net>, i: nat, key: Bytes)
    requires GoodSchedule(p.vals) && IsRun(p, run) && i < |run| && key in run[i].nodes
    ensures Open(run[i].nodes[key])
  {
    hide GoodSchedule, NodeInv, Open, Handle, Start, Unforged;
    if i == 0 {
      var env, height, lastCommit :| run[0].nodes[key] == Start(ConfigOf(p, key), env, height, lastCommit);
      StartOpen(ConfigOf(p, key), env, height, lastCommit);
    } else {
      assert Next(p, run[i - 1], run[i]);
      var a :| Allowed(p, run[i - 1], a) && run[i] == Perform(p, run[i - 1], a);
      RunOpen(p, run, i - 1, key);
      if a.Deliver? && a.key == key {
        RunInv(p, run, i - 1);
        if run[i - 1].nodes[key].halt == Running { RunningValid(p, run[i - 1], key); }
        HandleEnds(ConfigOf(p, key), a.env, run[i - 1].nodes[key], a.event);
      }
    }
  }

  lemma RunningValid(p: Protocol, n: Net, key: Bytes)
    requires NodesInv(p, n) && key in n.nodes && n.nodes[key].halt == Running
    ensures n.nodes[key].votes.Valid(p.verifyVote)
  {
    hide Past, ProposalInv, LockJustified, PrecommitsRecorded, LockHeld, HeightVotes.Valid, HeightVotes.Within;
  }

  /**
   * In every run and on every event, an honest node stops for want of a block exactly when the event is
   * the precommit that completes a quorum for a block and the node holds none, and for a hash mismatch
   * exactly when it holds another one. A quorum that its own precommit completes never stops it so.
   */
  lemma CommitEndsByHeld(p: Protocol, run: seq<Net>, i: nat, key: Bytes, env: Env, e: Event)
    requires GoodSchedule(p.vals) && IsRun(p, run) && i < |run| && key in run[i].nodes
    requires run[i].nodes[key].halt == Running
    ensures var cfg, s := ConfigOf(p, key), run[i].nodes[key];
      var s' := Perform(p, run[i], Deliver(key, env, e)).nodes[key];
      && (s'.halt == NoBlock <==> Held(s).None? && exists b :: Completes(cfg, env, s, e, b))
      && (s'.halt == HashMismatch <==> Held(s).Some? && exists b :: Completes(cfg, env, s, e, b) && !Holding(cfg, s, b))
      && (s'.halt == ApplyFailed ==> !env.applyOk && |s.applied| < |s'.applied|)
      && (forall b :: Completes(cfg, env, s, e, b) ==> EndsByHeld(cfg, env, s, s', b))
  {
    hide IsRun, GoodSchedule, NodeInv, Completes, Handle, Open;
    RunInv(p, run, i);
    RunOpen(p, run, i, key);
    RunningValid(p, run[i], key);
    HandleEnds(ConfigOf(p, key), env, run[i].nodes[key], e);
  }

  /**
   * In every state of every run, a node waits for prevotes only with prevotes of quorum power and no
   * majority among them, and for precommits only with precommits of quorum power and none for a block.
   */
  lemma WaitsWithQuorum(p: Protocol, run: seq<Net>, i: nat, key: Bytes)
    requires GoodSchedule(p.vals) && IsRun(p, run) && i < |run| && key in run[i].nodes
    requires run[i].nodes[key].halt == Running
    ensures var s := run[i].nodes[key];
      && (s.step == PrevoteWaitStep ==> SplitPrevotes(s))
      && (s.step == PrecommitWaitStep ==> EnoughPrecommits(s))
      && (forall r :: !Decides(s.votes.precommits, r))
  {
    hide IsRun, GoodSchedule;
    RunOpen(p, run, i, key);
  }

  /**
   * On every run, a node that has prevoted and records one more prevote of its round starts to wait
   * exactly when there is then quorum power without a majority, and it casts nothing.
   */
  lemma PrevoteWaitIff(p: Protocol, run: seq<Net>, i: nat, key: Bytes, env: Env, v: Vote)
    requires GoodSchedule(p.vals) && IsRun(p, run) && i < |run| && key in run[i].nodes
    requires var s := run[i].nodes[key];
      s.halt == Running && s.step == PrevoteStep && v.vtype == Prevote && v.round == s.round
      && AddToHeight(p.verifyVote, env.now, s.votes, v).1 == Added
    ensures var s := run[i].nodes[key];
      var s1 := s.(votes := AddToHeight(p.verifyVote, env.now, s.votes, v).0);
      var s' := Perform(p, run[i], Deliver(key, env, VoteEvent(v))).nodes[key];
      && (s'.step == PrevoteWaitStep <==> SplitPrevotes(s1))
      && (SplitPrevotes(s1) ==> s'.sent == s.sent && s'.lockedBlock == s.lockedBlock)
  {
    hide IsRun, GoodSchedule, AddToHeight, EnterNewRound, EnterPrecommit, EnterPrevote, Undecided,
      Tally.HasTwoThirdsAny;
    RunOpen(p, run, i, key);
    var s := run[i].nodes[key];
    var s1 := s.(votes := AddToHeight(p.verifyVote, env.now, s.votes, v).0);
    AddedVote(p.verifyVote, env.now, s.votes, v);
    PrecommitFromPrevote(ConfigOf(p, key), env, s1);
    AddedIsThere(p.verifyVote, env.now, s.votes, v);
  }

  /** The same of precommits, where a majority for nil is waited on as well. */
  lemma PrecommitWaitIff(p: Protocol, run: seq<Net>, i: nat, key: Bytes, env: Env, v: Vote)
    requires GoodSchedule(p.vals) && IsRun(p, run) && i < |run| && key in run[i].nodes
    requires var s := run[i].nodes[key];
      s.halt == Running && s.step == PrecommitStep && v.vtype == Precommit && v.round == s.round
      && AddToHeight(p.verifyVote, env.now, s.votes, v).1 == Added
    ensures var s := run[i].nodes[key];
      var s1 := s.(votes := AddToHeight(p.verifyVote, env.now, s.votes, v).0);
      var s' := Perform(p, run[i], Deliver(key, env, VoteEvent(v))).nodes[key];
      && (s'.step == PrecommitWaitStep <==> EnoughPrecommits(s1) && !Decides(s1.votes.precommits, s.round))
      && (!Decides(s1.votes.precommits, s.round) ==> s'.sent == s.sent && s'.lockedBlock == s.lockedBlock)
  {
    hide IsRun, GoodSchedule, AddToHeight, EnterNewRound, EnterPrecommit, EnterPrevote, EnterCommit, Undecided,
      Tally.HasTwoThirdsAny, OnlyDecision, BlockKey;
    RunOpen(p, run, i, key);
    var s := run[i].nodes[key];
    var s1 := s.(votes := AddToHeight(p.verifyVote, env.now, s.votes, v).0);
    AddedVote(p.verifyVote, env.now, s.votes, v);
    AddedIsThere(p.verifyVote, env.now, s.votes, v);
    if Undecided(s1.votes) {
      NoDecision(s1.votes, s.round);
    } else {
      EnterCommitEnds(ConfigOf(p, key), env, s1, s.round, BlockKey(v.blockHash).value);
    }
  }

  lemma NoDecision(hv: HeightVotes, round: int)
    requires Undecided(hv)
    ensures !Decides(hv.precommits, round)
  {}

  lemma AddedIsThere(verify: Ed25519, now: int, hv: HeightVotes, v: Vote)
    requires AddToHeight(verify, now, hv, v).1 == Added
    ensures var hv' := AddToHeight(verify, now, hv, v).0;
      (v.vtype == Prevote ==> v.round in hv'.prevotes) && (v.vtype == Precommit ==> v.round in hv'.precommits)
  {
    hide AddVote;
  }
}
