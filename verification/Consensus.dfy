/**
 * The consensus state of one node as the mutable object of the engine. Every method is proved to
 * take the state where the function of the same name in module Node takes its value. Start, Handle and
 * ReceiveRoutine state what that means for the object over any number of events.
 */
module Consensus {
  import opened Types
  import opened Validators
  import opened VoteSets
  import opened Commits
  import opened Node
  import opened NodeInvariants
  import opened NodeSafety
  import opened PrevoteRule
  import Privval
  import Rotation

  lemma {:induction false} FirstMatch(vals: seq<Validator>, key: Bytes, i: nat)
    requires i < |vals| && vals[i].publicKey == key && forall j :: 0 <= j < i ==> vals[j].publicKey != key
    ensures FindKey(vals, key) == Some(i)
  {
    if i < |vals| - 1 { FirstMatch(vals[..|vals| - 1], key, i); }
  }

  lemma DecidesInPlace(cfg: Config, s: NodeState)
    ensures Node.DecidePrecommit(cfg, s).1.step == s.step
  {}

  class ConsensusState {
    const cfg: Config
    const start: int
    var height: int
    var round: int
    var step: RoundStep
    var vals: ValidatorSet
    var proposal: Option<Proposal>
    var proposalBlock: Option<Block>
    var lockedRound: int
    var lockedBlock: Option<Block>
    var validRound: int
    var validBlock: Option<Block>
    var votes: HeightVotes
    var lastCommit: Option<Commit>
    var signer: Privval.LastSignState<Message>
    var halt: Halt
    var sent: set<Vote>
    var applied: seq<Applied>

    constructor (cfg: Config, height: int, lastCommit: Option<Commit>)
      requires GoodSchedule(cfg.vals)
      ensures Valid() && this.cfg == cfg
      ensures View() == NewNode(cfg, height, lastCommit)
    {
      this.cfg, start, this.height, round, step, vals := cfg, height, height, 0, NewHeightStep, cfg.vals(height);
      proposal, proposalBlock, lockedRound, lockedBlock, validRound, validBlock := None, None, -1, None, -1, None;
      this.lastCommit, signer, halt, sent, applied := lastCommit, Privval.FreshState(), Running, {}, [];
      votes := NoVotes(height, cfg.vals(height));
    }

    ghost predicate Valid()
      reads this
    {
      GoodSchedule(cfg.vals) && vals.Valid()
    }

    function View(): NodeState
      reads this
    {
      NodeState(start, height, round, step, vals, proposal, proposalBlock, lockedRound, lockedBlock, validRound,
                validBlock, votes, lastCommit, signer, halt, sent, applied)
    }

    // ----- Transitions -----

    method EnterNewRound(env: Env, height: int, round: int)
      requires Valid()
      modifies this
      ensures Valid() && View() == Node.EnterNewRound(cfg, env, old(View()), height, round)
      decreases 2, 0, 0
    {
      hide Node.CreateProposal, ValidatorSet.Valid, GoodSchedule, Rotation.ProposerForRound;
      if this.height == height && round >= this.round {
        ResetRound(round);
        step := ProposeStep;
        var proposer := Rotation.ProposerForRound(vals, this.round);
        if cfg.me == Some(proposer.publicKey) { CreateProposal(env); }
      }
    }

    method ResetRound(round: int)
      requires Valid()
      modifies this`round, this`step, this`proposal, this`proposalBlock, this`validRound, this`validBlock
      ensures Valid()
      ensures View() == RoundStart(old(View()), round).(step := NewRoundStep)
    {
      hide ValidatorSet.Valid, GoodSchedule;
      this.round, step := round, NewRoundStep;
      ForgetProposal();
      if round == 0 { ForgetValid(); }
    }

    method ForgetProposal()
      requires Valid()
      modifies this`proposal, this`proposalBlock
      ensures Valid() && View() == old(View()).(proposal := None, proposalBlock := None)
    {
      hide ValidatorSet.Valid, GoodSchedule;
      proposal, proposalBlock := None, None;
    }

    method ForgetValid()
      requires Valid()
      modifies this`validRound, this`validBlock
      ensures Valid() && View() == old(View()).(validRound := -1, validBlock := None)
    {
      hide ValidatorSet.Valid, GoodSchedule;
      validRound, validBlock := -1, None;
    }

    /** The proposal for a block, with the prevotes of the valid round as proof of lock. */
    method OwnProposal(env: Env, block: Block) returns (p: Proposal)
      requires Valid()
      ensures p == Node.OwnProposal(env, View(), block)
    {
      var polVotes := [];
      if validRound >= 0 {
        var prevotes := votes.Prevotes(validRound);
        if prevotes.Some? { polVotes := SortedVotes(prevotes.value, |vals.validators|); }
      }
      p := Proposal(height, round, env.now, block, validRound, polVotes,
                    Rotation.ProposerForRound(vals, round).name, []);
    }

    method CreateProposal(env: Env)
      requires Valid()
      modifies this
      ensures Valid() && View() == Node.CreateProposal(cfg, env, old(View()))
      decreases 1, 9, 0
    {
      hide Node.EnterPrevote, Node.OwnProposal, Sign, ProposalRequest, ValidatorSet.Valid, GoodSchedule;
      var block := if validBlock.Some? then validBlock else if lockedBlock.Some? then lockedBlock else env.newBlock;
      if block.Some? {
        var p := OwnProposal(env, block.value);
        var signed := Sign(cfg, signer, ProposalRequest(cfg, p));
        if signed.Some? {
          signer, proposal, proposalBlock := signed.value.1, Some(p.(signature := signed.value.0)), block;
          EnterPrevote(env, height, round);
        }
      }
    }

    /** The proof of lock of a proposal is a quorum of distinct valid prevotes for its block. */
    method ValidatePOL(p: Proposal) returns (ok: bool)
      requires vals.Valid()
      ensures ok <==> POLAccepted(cfg, vals, p)
    {
      if p.polVotes == [] { return false; }
      var blockHash, polPower, seen := BlockHash(cfg, p.block), 0, {};
      PowerOfEmpty(vals.validators);
      for i := 0 to |p.polVotes|
        invariant forall k :: 0 <= k < i ==> POLVoteAccepted(cfg, vals, p, p.polVotes[k])
        invariant forall j, k :: 0 <= j < k < i ==> p.polVotes[j].index != p.polVotes[k].index
        invariant seen == set k | 0 <= k < i :: p.polVotes[k].index
        invariant polPower == PowerOf(vals.validators, seen)
      {
        var vote := p.polVotes[i];
        if vote.vtype != Prevote { return false; }
        if vote.height != p.height { return false; }
        if vote.round != p.polRound { return false; }
        if vote.blockHash == None { return false; }
        if vote.blockHash.value != blockHash { return false; }
        var val := vals.GetByIndex(vote.index);
        if val.None? { return false; }
        if val.value.name != vote.validator { return false; }
        if vote.index in seen { return false; }
        PowerOfAdd(vals.validators, seen, vote.index);
        seen := seen + {vote.index};
        if !VerifySignature(cfg.verifyVote, val.value.publicKey, vote) { return false; }
        polPower := polPower + val.value.votingPower;
      }
      assert seen == POLVoters(p);
      ok := polPower >= vals.TwoThirdsMajority();
    }

    method CanUnlock(p: Option<Proposal>) returns (ok: bool)
      requires Valid()
      ensures ok == Node.CanUnlock(cfg, View(), p)
    {
      hide POLAccepted;
      if p.None? { return false; }
      if p.value.polRound < 0 { return false; }
      if p.value.polRound <= lockedRound { return false; }
      if p.value.polRound >= p.value.round { return false; }
      ok := ValidatePOL(p.value);
    }

    /** What to prevote for, and whether the lock is given up. */
    method DecidePrevote() returns (blockHash: Option<Bytes>, unlock: bool)
      requires Valid()
      ensures (blockHash, unlock) == Node.DecidePrevote(cfg, View())
    {
      hide Node.CanUnlock;
      blockHash, unlock := None, false;
      if lockedBlock.Some? {
        var lockedHash := BlockHash(cfg, lockedBlock.value);
        if proposalBlock.Some? {
          var proposalHash := BlockHash(cfg, proposalBlock.value);
          if proposalHash == lockedHash {
            blockHash := Some(lockedHash);
          } else {
            unlock := CanUnlock(proposal);
            if unlock { blockHash := Some(proposalHash); }
          }
        }
      } else if proposalBlock.Some? {
        blockHash := Some(BlockHash(cfg, proposalBlock.value));
      }
    }

    method EnterPrevote(env: Env, height: int, round: int)
      requires Valid()
      modifies this
      ensures Valid() && View() == Node.EnterPrevote(cfg, env, old(View()), height, round)
      decreases 1, 8 - step.Rank(), 3
    {
      hide Node.SignAndSendVote, Node.DecidePrevote;
      if this.height == height && this.round == round && step.Rank() < PrevoteStep.Rank() {
        var blockHash, unlock := DecidePrevote();
        if unlock {
          lockedRound := -1;
          lockedBlock := None;
        }
        step := PrevoteStep;
        SignAndSendVote(env, Prevote, blockHash);
      }
    }

    method EnterPrevoteWait(height: int, round: int)
      requires Valid()
      modifies this
      ensures Valid() && View() == Node.EnterPrevoteWait(old(View()), height, round)
    {
      if this.height != height || this.round != round || step.Rank() >= PrevoteWaitStep.Rank() { return; }
      step := PrevoteWaitStep;
    }

    /** What to precommit for; takes or gives up the lock that goes with it. */
    method DecidePrecommit() returns (blockHash: Option<Bytes>)
      requires Valid()
      modifies this
      ensures Valid() && (blockHash, View()) == Node.DecidePrecommit(cfg, old(View()))
    {
      var prevotes := votes.Prevotes(round);
      blockHash := None;
      if prevotes.Some? && prevotes.value.maj23.Some? {
        var majority := prevotes.value.maj23.value;
        if majority.None? {
          lockedRound := -1;
          lockedBlock := None;
        } else if proposalBlock.Some? && BlockHash(cfg, proposalBlock.value) == majority.value {
          lockedRound := round;
          lockedBlock := proposalBlock;
          validRound := round;
          validBlock := proposalBlock;
          blockHash := majority;
        }
      }
    }

    method EnterPrecommit(env: Env, height: int, round: int)
      requires Valid()
      modifies this
      ensures Valid() && View() == Node.EnterPrecommit(cfg, env, old(View()), height, round)
      decreases 1, 8 - step.Rank(), 0
    {
      hide Node.DecidePrecommit, Node.SignAndSendVote;
      if this.height == height && this.round == round && step.Rank() < PrecommitStep.Rank() {
        step := PrecommitStep;
        assert View() == old(View()).(step := PrecommitStep);
        DecidesInPlace(cfg, View());
        var blockHash := DecidePrecommit();
        SignAndSendVote(env, Precommit, blockHash);
      }
    }

    method EnterPrecommitWait(height: int, round: int)
      requires Valid()
      modifies this
      ensures Valid() && View() == Node.EnterPrecommitWait(old(View()), height, round)
    {
      if this.height != height || this.round != round || step.Rank() >= PrecommitWaitStep.Rank() { return; }
      step := PrecommitWaitStep;
    }

    /** Searches the rounds downwards for the one that committed. */
    method EnterCommit(env: Env, height: int)
      requires Valid()
      modifies this
      ensures Valid() && View() == Node.EnterCommit(cfg, env, old(View()), height)
    {
      hide Node.FinalizeCommit, Commits.MakeCommit;
      if this.height != height || step.Rank() >= CommitStep.Rank() { return; }
      step := CommitStep;
      var r := round;
      while r >= 0
        invariant CommitRound(votes.precommits, round) == CommitRound(votes.precommits, r)
        invariant Valid() && View() == old(View()).(step := CommitStep)
      {
        var precommits := votes.Precommits(r);
        if precommits.Some? {
          var majority := precommits.value.TwoThirdsMajority();
          if majority.Some? && majority.value.Some? {
            var commit := MakeCommit(precommits.value);
            if commit.Some? {
              FinalizeCommit(env, height, commit.value);
              return;
            }
          }
        }
        r := r - 1;
      }
      halt := NoCommitFound;
    }

    method FinalizeCommit(env: Env, height: int, commit: Commit)
      requires Valid()
      modifies this
      ensures Valid() && View() == Node.FinalizeCommit(cfg, env, old(View()), height, commit)
    {
      var block := lockedBlock;
      if block.None? { block := proposalBlock; }
      if block.None? {
        halt := NoBlock;
      } else if BlockHash(cfg, block.value) != commit.blockHash {
        halt := HashMismatch;
      } else {
        applied := applied + [Applied(height, block.value, commit)];
        if env.applyOk { ToNextHeight(height, commit); } else { halt := ApplyFailed; }
      }
    }

    method ToNextHeight(height: int, commit: Commit)
      requires Valid()
      modifies this
      ensures Valid() && View() == NextHeight(cfg, old(View()), height, commit)
    {
      hide ValidatorSet.Valid;
      ForgetBlocks();
      this.height := height + 1;
      round := 0;
      step := NewHeightStep;
      lastCommit := Some(commit);
      vals := cfg.vals(this.height);
      votes := NoVotes(this.height, vals);
    }

    method ForgetBlocks()
      requires Valid()
      modifies this`proposal, this`proposalBlock, this`lockedRound, this`lockedBlock, this`validRound, this`validBlock
      ensures Valid() && View() == old(View()).(proposal := None, proposalBlock := None, lockedRound := -1,
                                                lockedBlock := None, validRound := -1, validBlock := None)
    {
      hide ValidatorSet.Valid, GoodSchedule;
      ForgetProposal();
      lockedRound, lockedBlock := -1, None;
      ForgetValid();
    }

    // ----- Own votes -----

    /** The position of the node's own validator. */
    method OwnIndex() returns (r: Option<int>)
      requires Valid()
      ensures r == Node.OwnIndex(cfg, View())
    {
      r := None;
      if cfg.me.Some? {
        var i := 0;
        while i < |vals.validators| && vals.validators[i].publicKey != cfg.me.value
          invariant 0 <= i <= |vals.validators|
          invariant forall j :: 0 <= j < i ==> vals.validators[j].publicKey != cfg.me.value
        {
          i := i + 1;
        }
        if i < |vals.validators| {
          FirstMatch(vals.validators, cfg.me.value, i);
          r := Some(vals.validators[i].index);
        }
      }
    }

    /** Records a signed own vote; it is a panic when the vote is not added. */
    method RecordOwn(env: Env, v: Vote, last: Privval.LastSignState<Message>)
      modifies this`signer, this`sent, this`votes, this`halt
      ensures var (more, added) := AddToHeight(cfg.verifyVote, env.now, old(votes), v);
        View() == old(View()).(signer := last, sent := old(sent) + {v}, votes := more,
                               halt := if added == Added then old(halt) else OwnVoteRejected)
    {
      hide AddToHeight;
      var (more, added) := AddToHeight(cfg.verifyVote, env.now, votes, v);
      signer, sent, votes := last, sent + {v}, more;
      if added != Added { halt := OwnVoteRejected; }
    }

    /** Signs an own vote and records it. */
    method Cast(env: Env, vtype: VoteType, hash: Option<Bytes>) returns (vote: Option<Vote>)
      requires Valid()
      modifies this`signer, this`sent, this`votes, this`halt
      ensures Valid() && height == old(height) && step == old(step)
      ensures match Node.Cast(cfg, env, old(View()), vtype, hash)
        case None => vote == None && View() == old(View())
        case Some((s, v)) => vote == Some(v) && View() == s
    {
      hide AddToHeight, Node.OwnIndex, Sign, VoteRequest, ValidatorSet.Valid, GoodSchedule;
      vote := None;
      var index := OwnIndex();
      if index.Some? {
        var validator := vals.validators[index.value];
        var ballot := Vote(vtype, height, round, hash, env.now, validator.name, index.value, []);
        var signed := Sign(cfg, signer, VoteRequest(ballot));
        if signed.Some? {
          var v := ballot.(signature := signed.value.0);
          vote := Some(v);
          RecordOwn(env, v, signed.value.1);
        }
      }
    }

    method SignAndSendVote(env: Env, vtype: VoteType, hash: Option<Bytes>)
      requires Valid() && (vtype == Prevote || vtype == Precommit)
      modifies this
      ensures Valid() && View() == Node.SignAndSendVote(cfg, env, old(View()), vtype, hash)
      decreases 1, 8 - step.Rank(), 2
    {
      hide Node.Cast, Node.HandlePrevote, Node.HandlePrecommit;
      var vote := Cast(env, vtype, hash);
      if vote.Some? && halt == Running {
        if vtype == Prevote { HandlePrevote(env, vote.value); } else { HandlePrecommit(env, vote.value); }
      }
    }

    // ----- Votes -----

    method HandlePrevote(env: Env, v: Vote)
      requires Valid()
      modifies this
      ensures Valid() && View() == Node.HandlePrevote(cfg, env, old(View()), v)
      decreases if v.round > round then 3 else 1, 8 - step.Rank(), 1
    {
      hide Node.EnterNewRound, Node.EnterPrecommit, Node.EnterPrevote;
      var found := votes.Prevotes(v.round);
      if found.None? { return; }
      var prevotes := found.value;
      if v.round > round {
        if prevotes.HasTwoThirdsAny() {
          var h := height;
          EnterNewRound(env, height, v.round);
          if halt != Running { return; }
          prevotes := Refreshed(prevotes, View(), h, votes.Prevotes(v.round));
          if prevotes.HasTwoThirdsMajority() {
            EnterPrecommit(env, height, v.round);
          } else {
            EnterPrevote(env, height, v.round);
          }
          return;
        }
      }
      if v.round == round {
        if prevotes.HasTwoThirdsMajority() {
          if step == PrevoteStep || step == PrevoteWaitStep { EnterPrecommit(env, height, round); }
        } else if prevotes.HasTwoThirdsAny() {
          if step == PrevoteStep { EnterPrevoteWait(height, round); }
        }
      }
    }

    method HandlePrecommit(env: Env, v: Vote)
      requires Valid()
      modifies this
      ensures Valid() && View() == Node.HandlePrecommit(cfg, env, old(View()), v)
      decreases if v.round > round then 3 else 1, 8 - step.Rank(), 1
    {
      hide Node.EnterNewRound, Node.EnterPrecommit, Node.EnterPrevote, Node.EnterCommit;
      var found := votes.Precommits(v.round);
      if found.None? { return; }
      var precommits := found.value;
      var majority := precommits.TwoThirdsMajority();
      if majority.Some? && majority.value.Some? {
        if v.round > round { round := v.round; }
        EnterCommit(env, height);
        return;
      }
      if v.round > round {
        if precommits.HasTwoThirdsAny() {
          EnterNewRound(env, height, v.round);
          if halt != Running { return; }
          EnterPrevote(env, height, v.round);
          if halt != Running { return; }
          EnterPrecommit(env, height, v.round);
          return;
        }
      }
      if v.round == round {
        if precommits.HasTwoThirdsAny() {
          if step == PrecommitStep { EnterPrecommitWait(height, round); }
        }
      }
    }

    // ----- Events -----

    method HandleProposal(env: Env, p: Proposal)
      requires Valid()
      modifies this
      ensures Valid() && View() == Node.HandleProposal(cfg, env, old(View()), p)
    {
      hide Node.EnterPrevote, POLAccepted;
      if p.height != height || p.round != round { return; }
      if proposal.Some? { return; }
      var proposer := Rotation.ProposerForRound(vals, p.round);
      if p.proposer != proposer.name { return; }
      if !(|proposer.publicKey| == PUBLIC_KEY_SIZE && |p.signature| == SIGNATURE_SIZE
           && cfg.verifyProposal(proposer.publicKey, p.(signature := []), p.signature)) { return; }
      if p.polRound >= 0 {
        var ok := ValidatePOL(p);
        if !ok { return; }
      }
      if !env.blockValid { return; }
      proposal := Some(p);
      proposalBlock := Some(p.block);
      EnterPrevote(env, height, round);
    }

    method HandleVote(env: Env, v: Vote)
      requires Valid()
      modifies this
      ensures Valid() && View() == Node.HandleVote(cfg, env, old(View()), v)
    {
      hide AddToHeight, Node.HandlePrevote, Node.HandlePrecommit;
      var (more, added) := AddToHeight(cfg.verifyVote, env.now, votes, v);
      votes := more;
      if added != Added { return; }
      match v.vtype
      case Prevote => HandlePrevote(env, v);
      case Precommit => HandlePrecommit(env, v);
      case OtherVote(_) =>
    }

    method HandleTimeout(env: Env, height: int, round: int, step: RoundStep)
      requires Valid()
      modifies this
      ensures Valid() && View() == Node.HandleTimeout(cfg, env, old(View()), height, round, step)
    {
      hide Node.EnterPrevote, Node.EnterPrecommit, Node.EnterNewRound;
      if height != this.height || round < this.round { return; }
      match step
      case ProposeStep => if this.step == ProposeStep { EnterPrevote(env, this.height, this.round); }
      case PrevoteWaitStep => if this.step == PrevoteWaitStep { EnterPrecommit(env, this.height, this.round); }
      case PrecommitWaitStep =>
        if this.step == PrecommitWaitStep {
          var nextRound := if this.round >= MAX_INT32 then MAX_INT32 else this.round + 1;
          EnterNewRound(env, this.height, nextRound);
        }
      case CommitStep => EnterNewRound(env, this.height, 0);
      case NewHeightStep | NewRoundStep | PrevoteStep | PrecommitStep =>
    }

    /** One turn of the receive loop: the invariant is kept, and the lock obeyed, for unforged events. */
    method Handle(env: Env, e: Event, ghost others: set<Vote>)
      requires Valid()
      modifies this
      ensures Valid() && View() == Node.Handle(cfg, env, old(View()), e)
      ensures Safe(cfg, others, old(View())) && Unforged(cfg, others + old(sent), e) ==>
        SafeStep(cfg, others, old(View()), View()) && Obeys(cfg, others, old(View()), View())
    {
      hide Node.HandleProposal, Node.HandleVote, Node.HandleTimeout, NodeInv, Unforged, Obeys;
      HandleKeeps(cfg, env, others, View(), e);
      if halt != Running { return; }
      match e
      case ProposalEvent(p) => HandleProposal(env, p);
      case VoteEvent(v) => HandleVote(env, v);
      case TimeoutEvent(h, r, s) => HandleTimeout(env, h, r, s);
    }

    /** Enters the first round; from here on the invariant holds. */
    method Start(env: Env, ghost others: set<Vote>)
      requires Valid() && View() == NewNode(cfg, height, lastCommit)
      modifies this
      ensures Valid() && View() == Node.Start(cfg, env, old(height), old(lastCommit))
      ensures Safe(cfg, others, View())
    {
      hide Node.EnterNewRound, NodeInv;
      StartSafe(cfg, env, others, height, lastCommit);
      EnterNewRound(env, height, 0);
    }

    /**
     * Any number of turns of the receive loop. With unforged events, no two different own votes are at
     * one place, every applied block is certified at consecutive heights, and a lock is the recorded
     * prevote majority of its round.
     */
    method ReceiveRoutine(inputs: seq<(Env, Event)>, ghost others: set<Vote>)
      requires Valid() && Safe(cfg, others, View())
      requires forall i :: 0 <= i < |inputs| ==> Unforged(cfg, others, inputs[i].1)
      modifies this
      ensures Valid() && Safe(cfg, others, View()) && Advances(old(View()), View())
      ensures forall v, w :: v in sent && w in sent && SamePlace(v, w) ==> v == w
      ensures forall i :: 0 <= i < |applied| ==>
        var a := applied[i];
        a.height == start + i
        && Certified(cfg.verifyVote, cfg.vals(a.height), BlockHash(cfg, a.block), a.height, a.commit)
      ensures halt == Running && lockedBlock.Some? ==>
        0 <= lockedRound <= round && HasMajority(View(), lockedRound, Some(BlockHash(cfg, lockedBlock.value)))
    {
      hide NodeInv, Node.Handle, Unforged, Obeys, SamePlace, Certified, HasMajority;
      for i := 0 to |inputs|
        invariant Valid() && Safe(cfg, others, View()) && Advances(old(View()), View())
      {
        MoreKnown(cfg, others, sent, inputs[i].1);
        Handle(inputs[i].0, inputs[i].1, others);
      }
      WhatSafeMeans(cfg, others, View());
    }
  }

  lemma HandleKeeps(cfg: Config, env: Env, others: set<Vote>, s: NodeState, e: Event)
    requires GoodSchedule(cfg.vals)
    ensures Safe(cfg, others, s) && Unforged(cfg, others + s.sent, e) ==>
      SafeStep(cfg, others, s, Node.Handle(cfg, env, s, e)) && Obeys(cfg, others, s, Node.Handle(cfg, env, s, e))
  {
    hide NodeInv, Node.Handle, Unforged, Obeys;
    if Safe(cfg, others, s) && Unforged(cfg, others + s.sent, e) {
      HandleSafe(cfg, env, others, s, e);
      HandleObeys(cfg, env, others, s, e);
    }
  }

  lemma MoreKnown(cfg: Config, others: set<Vote>, sent: set<Vote>, e: Event)
    requires Unforged(cfg, others, e)
    ensures Unforged(cfg, others + sent, e)
  {
    hide Authentic;
  }

  lemma WhatSafeMeans(cfg: Config, others: set<Vote>, s: NodeState)
    requires Safe(cfg, others, s)
    ensures forall v, w :: v in s.sent && w in s.sent && SamePlace(v, w) ==> v == w
    ensures forall i :: 0 <= i < |s.applied| ==>
      var a := s.applied[i];
      a.height == s.start + i
      && Certified(cfg.verifyVote, cfg.vals(a.height), BlockHash(cfg, a.block), a.height, a.commit)
    ensures s.halt == Running && s.lockedBlock.Some? ==>
      0 <= s.lockedRound <= s.round && HasMajority(s, s.lockedRound, Some(BlockHash(cfg, s.lockedBlock.value)))
  {
    hide PrecommitsBacked, PrevotesFaithful, Certified, SamePlace, HasMajority, OwnVote, SignerCovers, Quorum, LockHeld,
      PrecommitsRecorded, Consistent, ProposalInv;
    forall i | 0 <= i < |s.applied|
      ensures var a := s.applied[i];
        a.height == s.start + i
        && Certified(cfg.verifyVote, cfg.vals(a.height), BlockHash(cfg, a.block), a.height, a.commit)
    {
      assert AppliedGood(cfg, others + s.sent, s.applied[i]);
    }
  }
}
