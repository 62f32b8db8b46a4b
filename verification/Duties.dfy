/**
 * What every running node does, over all runs: which proposals it records, what its votes are for, when
 * it joins a later round, what it proposes, and when others accept what it proposes again.
 */
module Duties {
  import opened Types
  import opened Validators
  import opened VoteSets
  import opened Node
  import opened NodeInvariants
  import opened NodeSafety
  import opened Network
  import opened CommitHalts
  import opened Responses
  import Privval
  import Rotation

  /** A running honest node of a run. */
  ghost predicate RunsAt(p: Protocol, run: seq<Net>, i: nat, key: Bytes) {
    GoodSchedule(p.vals) && IsRun(p, run) && i < |run| && key in run[i].nodes && run[i].nodes[key].halt == Running
  }

  /** The node after an event was delivered to it. */
  function After(p: Protocol, n: Net, key: Bytes, env: Env, e: Event): NodeState
    requires key in n.nodes
  {
    Perform(p, n, Deliver(key, env, e)).nodes[key]
  }

  // ----- Proposals -----

  /**
   * A node without a proposal records one exactly when it is for the node's height and round, named and
   * signed by the proposer of the round, with an accepted proof of lock if it names a round for one, and
   * with a valid block; the node keeps it until the height is over, and prevotes. Any other proposal
   * changes nothing.
   */
  lemma ProposalRecordedIff(p: Protocol, run: seq<Net>, i: nat, key: Bytes, env: Env, q: Proposal)
    requires RunsAt(p, run, i, key)
    ensures var cfg, s, s' := ConfigOf(p, key), run[i].nodes[key], After(p, run[i], key, env, ProposalEvent(q));
      && (s.proposal.None? && s'.proposal == Some(q) ==> AcceptableProposal(cfg, env, s, q))
      && (s.proposal.None? && AcceptableProposal(cfg, env, s, q) ==>
            && (s'.proposal == Some(q) || s'.height > s.height)
            && (s.step.Rank() < PrevoteStep.Rank() && Able(cfg, s, s.round, Privval.STEP_PREVOTE) ==>
                  CastAt(s', Prevote, s.height, s.round)))
      && (s.proposal.Some? || !AcceptableProposal(cfg, env, s, q) ==> s' == s)
  {
    hide IsRun, GoodSchedule, AcceptableProposal, Handle, CastAt, Able, VoteRule;
    RunResponds(p, run, i, key, env, ProposalEvent(q));
  }

  // ----- Votes -----

  /** The round a node votes in on an event. */
  function RoundFor(s: NodeState, e: Event): int {
    match e
    case ProposalEvent(_) => s.round
    case VoteEvent(v) => if v.round > s.round then v.round else s.round
    case TimeoutEvent(_, _, step) =>
      if step == PrecommitWaitStep then NextRound(s) else if step == CommitStep then 0 else s.round
  }

  /** The proposal a node holds when it votes on an event: a delivered one, an own one, or the one it has. */
  function HeldFor(cfg: Config, env: Env, s: NodeState, e: Event): Option<Proposal> {
    match e
    case ProposalEvent(q) => Some(q)
    case VoteEvent(v) => if v.round > s.round then OwnOffer(cfg, env, WithVote(cfg, env, s, v), v.round) else s.proposal
    case TimeoutEvent(_, _, step) =>
      if step == PrecommitWaitStep || step == CommitStep then OwnOffer(cfg, env, s, RoundFor(s, e)) else s.proposal
  }

  /**
   * Whatever an event starts, every vote it makes a node cast is of one round. A prevote is for the block
   * of the proposal held then, when the node was not locked, was locked on that block, or the proposal
   * carries an accepted proof of lock strictly between the lock and its round; in every other case it is
   * for nil. A precommit is for the held block exactly when that has a prevote majority.
   */
  lemma VotesFollowRules(p: Protocol, run: seq<Net>, i: nat, key: Bytes, env: Env, e: Event, v: Vote)
    requires RunsAt(p, run, i, key)
    requires New(run[i].nodes[key], After(p, run[i], key, env, e), v)
    ensures var cfg, s, s' := ConfigOf(p, key), run[i].nodes[key], After(p, run[i], key, env, e);
      var held := HeldFor(cfg, env, s, e);
      && VoteRule(cfg, env, s, RoundFor(s, e), held, s', v)
      && (s'.height == s.height ==> s'.round == RoundFor(s, e) && s'.proposal == held)
  {
    hide IsRun, GoodSchedule, NodeInv, Handle, Response, OwnOffer;
    RunInv(p, run, i);
    RunResponds(p, run, i, key, env, e);
    Holds(p, run[i], key);
    ResponseVotes(ConfigOf(p, key), env, run[i].nodes[key], e, After(p, run[i], key, env, e), v);
  }

  lemma Holds(p: Protocol, n: Net, key: Bytes)
    requires NodesInv(p, n) && key in n.nodes && n.nodes[key].halt == Running
    ensures HoldsProposal(n.nodes[key]) && n.nodes[key].round >= 0
  {
    hide Past, LockJustified, PrecommitsRecorded, LockHeld, HeightVotes.Valid, HeightVotes.Within;
  }

  lemma ResponseVotes(cfg: Config, env: Env, s: NodeState, e: Event, s': NodeState, v: Vote)
    requires Response(cfg, env, s, e, s') && New(s, s', v) && HoldsProposal(s) && s.round >= 0
    ensures VoteRule(cfg, env, s, RoundFor(s, e), HeldFor(cfg, env, s, e), s', v)
    ensures s'.height == s.height ==> s'.round == RoundFor(s, e) && s'.proposal == HeldFor(cfg, env, s, e)
  {
    hide VoteRule, OwnOffer, AddToHeight, AcceptableProposal, CastAt, Able, QuorumSeen, PrecommitPhase, PrevotePhase,
      Majority, Decides;
    match e
    case ProposalEvent(q) =>
    case VoteEvent(w) =>
      var s1 := WithVote(cfg, env, s, w);
      SameRuleFor(cfg, env, s, s1, RoundFor(s, e), HeldFor(cfg, env, s, e), s', v);
      assert New(s1, s', v);
      if w.round <= s.round && IsAdded(cfg, env, s, w) { PrecommitPhaseVotes(cfg, env, s1, s', v); }
    case TimeoutEvent(_, _, step) =>
      PrecommitPhaseVotes(cfg, env, s, s', v);
      PrevotePhaseVotes(cfg, env, s, s', v);
  }

  lemma SameRuleFor(cfg: Config, env: Env, s: NodeState, s1: NodeState, round: int, held: Option<Proposal>,
          s': NodeState, v: Vote)
    requires s1 == s.(votes := s1.votes)
    ensures VoteRule(cfg, env, s1, round, held, s', v) <==> VoteRule(cfg, env, s, round, held, s', v)
  {
    hide POLAccepted, PrecommitRule;
  }

  lemma PrecommitPhaseVotes(cfg: Config, env: Env, s: NodeState, s': NodeState, v: Vote)
    requires New(s, s', v) && HoldsProposal(s)
    ensures PrecommitPhase(cfg, env, s, s') ==> VoteRule(cfg, env, s, s.round, s.proposal, s', v)
    ensures PrecommitPhase(cfg, env, s, s') && s'.height == s.height ==>
      s'.round == s.round && s'.proposal == s.proposal
  {
    hide CastAt, Able, LockRule, PrecommitRule, PrevoteChoice;
    if PrecommitPhase(cfg, env, s, s') { RuleCarries(cfg, env, s, s', v); }
  }

  lemma PrevotePhaseVotes(cfg: Config, env: Env, s: NodeState, s': NodeState, v: Vote)
    requires New(s, s', v) && HoldsProposal(s)
    ensures PrevotePhase(cfg, env, s, s') ==> VoteRule(cfg, env, s, s.round, s.proposal, s', v)
    ensures PrevotePhase(cfg, env, s, s') && s'.height == s.height ==> s'.round == s.round && s'.proposal == s.proposal
  {
    hide CastAt, Able, PrecommitRule, PrevoteChoice;
  }

  // ----- Later rounds -----

  /**
   * A prevote of a later round is recorded. When the recorded voters of that round then have quorum
   * power, the node joins the round, or is done with the height; it precommits there when there is a
   * majority and prevotes otherwise, if it is a validator whose signer has not been there. Without quorum
   * power it records the vote and does nothing.
   */
  lemma JoinsForPrevotes(p: Protocol, run: seq<Net>, i: nat, key: Bytes, env: Env, v: Vote)
    requires RunsAt(p, run, i, key) && IsAdded(ConfigOf(p, key), env, run[i].nodes[key], v)
    requires v.vtype == Prevote && v.round > run[i].nodes[key].round
    ensures var cfg, s, s' := ConfigOf(p, key), run[i].nodes[key], After(p, run[i], key, env, VoteEvent(v));
      var s1 := WithVote(cfg, env, s, v);
      if QuorumSeen(s.vals, s1.votes.prevotes, v.round) then
        && (s'.height > s.height || s'.round == v.round)
        && (s'.height == s.height && s'.halt == Running && Able(cfg, s, v.round, Privval.STEP_PREVOTE) ==>
              CastAt(s', if Majority(s') then Precommit else Prevote, s.height, v.round))
      else s' == s1
  {
    hide IsRun, GoodSchedule, Handle, CastAt, Able, VoteRule, QuorumSeen, OwnOffer, AddToHeight;
    RunResponds(p, run, i, key, env, VoteEvent(v));
    var cfg, s := ConfigOf(p, key), run[i].nodes[key];
    SameAble(cfg, s, WithVote(cfg, env, s, v), v.round, Privval.STEP_PREVOTE);
  }

  /**
   * The same of precommits of a later round that do not commit a block: the node joins the round and
   * casts both its votes there.
   */
  lemma JoinsForPrecommits(p: Protocol, run: seq<Net>, i: nat, key: Bytes, env: Env, v: Vote)
    requires RunsAt(p, run, i, key) && IsAdded(ConfigOf(p, key), env, run[i].nodes[key], v)
    requires v.vtype == Precommit && v.round > run[i].nodes[key].round
    requires !Decides(WithVote(ConfigOf(p, key), env, run[i].nodes[key], v).votes.precommits, v.round)
    ensures var cfg, s, s' := ConfigOf(p, key), run[i].nodes[key], After(p, run[i], key, env, VoteEvent(v));
      var s1 := WithVote(cfg, env, s, v);
      if QuorumSeen(s.vals, s1.votes.precommits, v.round) then
        && (s'.height > s.height || s'.round == v.round)
        && (s'.height == s.height && s'.halt == Running && Able(cfg, s, v.round, Privval.STEP_PREVOTE) ==>
              CastAt(s', Prevote, s.height, v.round) && CastAt(s', Precommit, s.height, v.round))
      else s' == s1
  {
    hide IsRun, GoodSchedule, Handle, CastAt, Able, VoteRule, QuorumSeen, OwnOffer, AddToHeight, Decides;
    RunResponds(p, run, i, key, env, VoteEvent(v));
    var cfg, s := ConfigOf(p, key), run[i].nodes[key];
    SameAble(cfg, s, WithVote(cfg, env, s, v), v.round, Privval.STEP_PREVOTE);
  }

  // ----- Own proposals -----

  predicate InOrder(vs: seq<Vote>) { forall j, k :: 0 <= j < k < |vs| ==> vs[j].index < vs[k].index }

  /** The list holds exactly the recorded votes, in increasing order of validator. */
  ghost predicate ListsAll(vs: seq<Vote>, t: Tally) {
    && (forall v :: v in vs <==> v.index in t.votes && t.votes[v.index] == v)
    && InOrder(vs)
  }

  /**
   * What a node proposes: after round 0 its valid block, with the round of that block and all prevotes of
   * that round; else its locked block, else a new one, and no proof of lock.
   */
  ghost predicate IsOffer(env: Env, s: NodeState, round: int, q: Proposal) {
    && q.height == s.height && q.round == round && q.timestamp == env.now
    && q.proposer == Rotation.ProposerForRound(s.vals, round).name
    && (if round > 0 && s.validBlock.Some? then
          && q.block == s.validBlock.value && q.polRound == s.validRound
          && s.validRound in s.votes.prevotes && ListsAll(q.polVotes, s.votes.prevotes[s.validRound])
        else
          && Some(q.block) == (if s.lockedBlock.Some? then s.lockedBlock else env.newBlock)
          && q.polRound == -1 && q.polVotes == [])
  }

  lemma {:induction false} SortedVotesList(t: Tally, n: nat)
    requires t.Indexed() && n <= |t.vals.validators|
    ensures forall v :: v in SortedVotes(t, n) <==> v.index in t.votes && t.votes[v.index] == v && v.index < n
    ensures InOrder(SortedVotes(t, n))
  {
    if n > 0 {
      SortedVotesList(t, n - 1);
      var before := SortedVotes(t, n - 1);
      forall j | 0 <= j < |before| ensures before[j].index < n - 1 { assert before[j] in before; }
      assert n - 1 in t.votes ==> t.votes[n - 1].index == n - 1;
    }
  }

  lemma ValidVotesListed(cfg: Config, env: Env, known: set<Vote>, s: NodeState, round: int, block: Block)
    requires Consistent(cfg, known, s) && LockJustified(cfg, s) && round >= 0
    ensures var q := OwnProposal(env, RoundStart(s, round), block);
      if round > 0 && s.validBlock.Some? then
        && q.polRound == s.validRound && s.validRound in s.votes.prevotes
        && ListsAll(q.polVotes, s.votes.prevotes[s.validRound])
      else q.polRound == -1 && q.polVotes == []
  {
    hide SortedVotes, Tally.Genuine, EntryExact, BlockKey, IsQuorum, PowerOf;
    if round > 0 && s.validBlock.Some? {
      var t := s.votes.prevotes[s.validRound];
      assert s.votes.Holds(cfg.verifyVote, t, Prevote, s.validRound);
      SortedVotesList(t, |s.vals.validators|);
      var vs := OwnProposal(env, RoundStart(s, round), block).polVotes;
      assert vs == SortedVotes(t, |s.vals.validators|);
      forall v ensures v in vs <==> v.index in t.votes && t.votes[v.index] == v {}
    }
  }

  lemma OfferIs(cfg: Config, env: Env, known: set<Vote>, s: NodeState, round: int)
    requires Consistent(cfg, known, s) && LockJustified(cfg, s) && round >= 0
    ensures var q := OwnOffer(cfg, env, s, round);
      && (q.Some? ==>
          cfg.me == Some(Rotation.ProposerForRound(s.vals, round).publicKey) && IsOffer(env, s, round, q.value))
      && (cfg.me == Some(Rotation.ProposerForRound(s.vals, round).publicKey)
          && ((round > 0 && s.validBlock.Some?) || s.lockedBlock.Some? || env.newBlock.Some?)
          && Privval.HRSBefore(s.signer.height, s.signer.round, s.signer.step, s.height, round, Privval.STEP_PROPOSAL)
          ==> q.Some? && q.value.signature == cfg.sign(ProposalMessage(q.value.(signature := []))))
  {
    hide ListsAll, SortedVotes, Rotation.ProposerForRound, Consistent, LockJustified, IsHashEmpty;
    var s1 := RoundStart(s, round);
    var block := BlockToPropose(env, s1);
    if block.Some? {
      ValidVotesListed(cfg, env, known, s, round, block.value);
      var req := ProposalRequest(cfg, OwnProposal(env, s1, block.value));
      Privval.CheckHRSMeaning(s.signer, req.height, req.round, req.step);
    }
  }

  /**
   * A node proposes in a round only when it is the round's proposer, and then its valid block with its
   * proof, its locked block or a new block; as proposer with a block and a signer that has not been in
   * the round it does propose, and signs what it proposes.
   */
  lemma ProposesInTurn(p: Protocol, run: seq<Net>, i: nat, key: Bytes, env: Env, round: int)
    requires RunsAt(p, run, i, key) && round >= 0
    ensures var cfg, s := ConfigOf(p, key), run[i].nodes[key]; var q := OwnOffer(cfg, env, s, round);
      && (q.Some? ==> key == Rotation.ProposerForRound(s.vals, round).publicKey && IsOffer(env, s, round, q.value))
      && (key == Rotation.ProposerForRound(s.vals, round).publicKey
          && ((round > 0 && s.validBlock.Some?) || s.lockedBlock.Some? || env.newBlock.Some?)
          && Privval.HRSBefore(s.signer.height, s.signer.round, s.signer.step, s.height, round, Privval.STEP_PROPOSAL)
          ==> q.Some? && q.value.signature == cfg.sign(ProposalMessage(q.value.(signature := []))))
  {
    hide IsRun, GoodSchedule, Past, ProposalInv, PrecommitsRecorded, LockHeld, Consistent, LockJustified, OwnOffer,
      IsOffer, Rotation.ProposerForRound;
    RunInv(p, run, i);
    OfferIs(ConfigOf(p, key), env, run[i].soup, run[i].nodes[key], round);
  }

  /** Every recorded vote is for the block. */
  ghost predicate AllFor(t: Tally, h: Bytes) { forall k :: k in t.votes ==> t.votes[k].blockHash == Some(h) }

  /**
   * A block proposed again is meant to be accepted for its proof of lock. It is exactly when every prevote
   * that the proposer has recorded of the round of the proof is for the block.
   */
  lemma ReproposalAcceptedIff(p: Protocol, run: seq<Net>, i: nat, key: Bytes, env: Env, round: int)
    requires RunsAt(p, run, i, key) && round > 0 && run[i].nodes[key].validBlock.Some?
    requires OwnOffer(ConfigOf(p, key), env, run[i].nodes[key], round).Some?
    ensures var cfg, s := ConfigOf(p, key), run[i].nodes[key];
      && s.validRound in s.votes.prevotes
      && (POLAccepted(cfg, s.vals, OwnOffer(cfg, env, s, round).value) <==>
            AllFor(s.votes.prevotes[s.validRound], p.hashHeader(s.validBlock.value.header)))
  {
    hide IsRun, GoodSchedule, Past, ProposalInv, PrecommitsRecorded, LockHeld, OwnOffer, HeightVotes.Within,
      HeightVotes.Valid, POLAccepted, IsOffer, Rotation.ProposerForRound;
    RunInv(p, run, i);
    var cfg, s := ConfigOf(p, key), run[i].nodes[key];
    OfferIs(cfg, env, run[i].soup, s, round);
    var q := OwnOffer(cfg, env, s, round).value;
    OfferHas(env, s, round, q);
    assert HasMajority(s, s.validRound, Some(BlockHash(cfg, q.block)));
    ValidHolds(cfg, s);
    ListedProof(cfg, s.vals, q, s.votes.prevotes[s.validRound]);
  }

  lemma ValidHolds(cfg: Config, s: NodeState)
    requires s.votes.Valid(cfg.verifyVote) && s.validRound in s.votes.prevotes
    ensures s.votes.Holds(cfg.verifyVote, s.votes.prevotes[s.validRound], Prevote, s.validRound)
  {
    hide Tally.Valid, Tally.Genuine;
  }

  lemma OfferHas(env: Env, s: NodeState, round: int, q: Proposal)
    requires IsOffer(env, s, round, q) && round > 0 && s.validBlock.Some?
    ensures q.block == s.validBlock.value && q.polRound == s.validRound && q.height == s.height
    ensures s.validRound in s.votes.prevotes && ListsAll(q.polVotes, s.votes.prevotes[s.validRound])
  {
    hide ListsAll, Rotation.ProposerForRound;
  }

  lemma ListedProof(cfg: Config, vals: ValidatorSet, q: Proposal, t: Tally)
    requires ListsAll(q.polVotes, t) && t.Valid() && t.Genuine(cfg.verifyVote) && t.vals == vals
    requires t.height == q.height && t.round == q.polRound && t.vtype == Prevote
    requires t.maj23 == Some(Some(BlockHash(cfg, q.block)))
    ensures POLAccepted(cfg, vals, q) <==> AllFor(t, BlockHash(cfg, q.block))
  {
    hide EntryExact, PowerOf, VerifySignature, IsHashEmpty;
    var h := BlockHash(cfg, q.block);
    forall k | k in t.votes ensures t.votes[k] in q.polVotes { assert t.votes[k].index == k; }
    assert IsQuorum(vals, t.Voters(Some(h)));
    SomeVote(t, h);
    if AllFor(t, h) {
      forall k | k in t.Voters(Some(h)) ensures k in POLVoters(q) {
        assert t.votes[k] in q.polVotes;
        var j :| 0 <= j < |q.polVotes| && q.polVotes[j] == t.votes[k];
      }
      PowerOfMonotone(vals.validators, t.Voters(Some(h)), POLVoters(q));
      forall j | 0 <= j < |q.polVotes| ensures POLVoteAccepted(cfg, vals, q, q.polVotes[j]) {
        assert q.polVotes[j] in q.polVotes;
      }
    } else {
      var k :| k in t.votes && t.votes[k].blockHash != Some(h);
      var j :| 0 <= j < |q.polVotes| && q.polVotes[j] == t.votes[k];
      assert !POLVoteAccepted(cfg, vals, q, q.polVotes[j]);
    }
  }

  /** A quorum is not empty. */
  lemma SomeVote(t: Tally, h: Bytes)
    requires t.Valid() && t.maj23 == Some(Some(h))
    ensures exists k :: k in t.votes
  {
    hide EntryExact, BlockKey;
    PowerOfEmpty(t.vals.validators);
    QuorumIsLeastAboveTwoThirds(t.vals);
    assert !IsQuorum(t.vals, {});
    assert (forall k :: k !in t.Voters(Some(h))) ==> t.Voters(Some(h)) == {};
    var k :| k in t.Voters(Some(h));
  }
}
