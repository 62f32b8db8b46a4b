/** Casting an own vote: what the signer guarantees, and why the node's invariant survives. */
module CastSafety {
  import opened Types
  import opened VoteSets
  import opened Node
  import opened NodeInvariants
  import Privval

  /** A prevote for a block may contradict an earlier precommit only if that one was overtaken. */
  ghost predicate PrevoteJustified(cfg: Config, known: set<Vote>, s: NodeState, hash: Option<Bytes>) {
    forall w, b :: w in s.sent && PrecommitFor(w, s.height, b) && w.round < s.round
                   && BlockKey(hash).Some? && BlockKey(hash) != Some(b) ==>
      Overtaken(cfg.vals, known, s.height, w.round, b, Bound(s))
  }

  /** A precommit for a block goes with the lock on it and with the recorded majority. */
  ghost predicate PrecommitJustified(cfg: Config, s: NodeState, hash: Option<Bytes>) {
    BlockKey(hash).Some? ==>
      LockedOn(cfg, s, BlockKey(hash).value, s.round) && HasMajority(s, s.round, BlockKey(hash))
  }

  // ----- The signer -----

  /** Position of a vote against the position of a signer. */
  predicate SignerBefore(last: Privval.LastSignState<Message>, v: Vote) {
    Privval.HRSBefore(last.height, last.round, last.step, v.height, v.round, VoteStep(v))
  }

  predicate SignerAt(last: Privval.LastSignState<Message>, v: Vote) {
    (last.height, last.round, last.step) == (v.height, v.round, VoteStep(v))
  }

  /** A ballot the signer accepts is either new and strictly later, or the vote released last. */
  lemma SignOutcome(cfg: Config, s: NodeState, ballot: Vote)
    requires SignerInv(cfg, s)
    requires ballot.signature == [] && (ballot.vtype == Prevote || ballot.vtype == Precommit)
    ensures var signed := Sign(cfg, s.signer, VoteRequest(ballot));
      && (signed.None? ==> !SignerBefore(s.signer, ballot))
      && (signed.Some? ==>
            var v := ballot.(signature := signed.value.0);
            && SignerAt(signed.value.1, ballot)
            && signed.value.1.signBytesHash == Some(VoteMessage(ballot))
            && signed.value.1.signature == signed.value.0
            && (SignerBefore(s.signer, ballot) || (signed.value.1 == s.signer && v in s.sent)))
  {
    hide OwnVote, SignerCovers;
    var req := VoteRequest(ballot);
    Privval.CheckHRSMeaning(s.signer, req.height, req.round, req.step);
    if Privval.Decide(SameMessage, s.signer, req) == Privval.ReturnCached {
      CachedIsLast(cfg, s, ballot);
    }
  }

  /** A signer without a recorded message is fresh, and stands at the proposal step. */
  lemma CachedIsLast(cfg: Config, s: NodeState, ballot: Vote)
    requires SignerInv(cfg, s) && ballot.signature == [] && (ballot.vtype == Prevote || ballot.vtype == Precommit)
    requires Privval.Decide(SameMessage, s.signer, VoteRequest(ballot)) == Privval.ReturnCached
    ensures s.signer.signBytesHash == Some(VoteMessage(ballot))
    ensures ballot.(signature := s.signer.signature) in s.sent
  {
  }

  // ----- Adding one vote to the record -----

  /** The state after an own vote `v` was signed and recorded. */
  ghost predicate Recorded(cfg: Config, env: Env, s: NodeState, s1: NodeState, v: Vote) {
    && s1 == s.(signer := s1.signer, sent := s.sent + {v}, votes := s1.votes, halt := s1.halt)
    && v.height == s.height && v.round == s.round && (v.vtype == Prevote || v.vtype == Precommit)
    && OwnVote(cfg, v)
    && SignerAt(s1.signer, v) && s1.signer.signBytesHash == Some(VoteMessage(v.(signature := [])))
    && s1.signer.signature == v.signature
    && (SignerBefore(s.signer, v) || (v in s.sent && s1.signer == s.signer))
    && s1.votes == AddToHeight(cfg.verifyVote, env.now, s.votes, v).0
    && (s1.halt == s.halt || s1.halt == OwnVoteRejected)
  }

  lemma CastRecords(cfg: Config, env: Env, s: NodeState, vtype: VoteType, hash: Option<Bytes>)
    requires SignerInv(cfg, s) && s.round >= 0 && s.vals == cfg.vals(s.height)
      && (vtype == Prevote || vtype == Precommit)
    ensures var cast := Cast(cfg, env, s, vtype, hash);
      && (cast.Some? ==>
            var (s1, v) := cast.value;
            Recorded(cfg, env, s, s1, v) && v.vtype == vtype && v.blockHash == hash)
      && (cast.None? ==> OwnIndex(cfg, s).None? || !Privval.HRSBefore(
            s.signer.height, s.signer.round, s.signer.step, s.height, s.round,
            if vtype == Prevote then Privval.STEP_PREVOTE else Privval.STEP_PRECOMMIT))
  {
    hide SignerInv, AddToHeight, Sign;
    var index := OwnIndex(cfg, s);
    if index.Some? {
      var ballot := Ballot(env, s, vtype, hash, index.value);
      SignOutcome(cfg, s, ballot);
    }
  }

  /** Votes at the node's place: the new one is later than all others, or not new at all. */
  lemma RecordedSigner(cfg: Config, env: Env, s: NodeState, s1: NodeState, v: Vote)
    requires SignerInv(cfg, s) && Recorded(cfg, env, s, s1, v)
    ensures SignerInv(cfg, s1)
    ensures forall w :: w in s.sent && w != v && w.height == v.height ==>
      w.round < v.round || (w.round == v.round && w.vtype == Prevote && v.vtype == Precommit)
  {
    hide AddToHeight;
    forall w | w in s.sent
      ensures SignerCovers(s1.signer, w)
      ensures w != v && w.height == v.height ==>
        w.round < v.round || (w.round == v.round && w.vtype == Prevote && v.vtype == Precommit)
    {
      assert OwnVote(cfg, w) && SignerCovers(s.signer, w);
      if w != v && v in s.sent { assert !SamePlace(v, w); }
    }
    assert SignerCovers(s1.signer, v);
  }

  /** A new vote keeps the votes known so far and adds itself. */
  lemma RecordedPast(cfg: Config, env: Env, known: set<Vote>, s: NodeState, s1: NodeState, v: Vote)
    requires GoodSchedule(cfg.vals) && s.halt == Running
    requires Past(cfg, known, s) && Consistent(cfg, known, s) && Recorded(cfg, env, s, s1, v)
    requires v.vtype == Prevote ==> PrevoteJustified(cfg, known, s, v.blockHash)
    requires v.vtype == Precommit ==> PrecommitJustified(cfg, s, v.blockHash)
    ensures Past(cfg, known + {v}, s1)
  {
    hide HeightVotes.Valid, HeightVotes.Within, AddToHeight, Quorum, Overtaken, SignerInv, AppliedGood;
    RecordedSigner(cfg, env, s, s1, v);
    PastMonotone(cfg, known, known + {v}, s);
    RecordedPrecommits(cfg, env, known, s, s1, v);
    RecordedPrevotes(cfg, env, known, s, s1, v);
  }

  lemma RecordedPrecommits(cfg: Config, env: Env, known: set<Vote>, s: NodeState, s1: NodeState, v: Vote)
    requires GoodSchedule(cfg.vals) && PrecommitsBacked(cfg.vals, known, s.sent)
    requires Consistent(cfg, known, s) && Recorded(cfg, env, s, s1, v)
    requires v.vtype == Precommit ==> PrecommitJustified(cfg, s, v.blockHash)
    ensures PrecommitsBacked(cfg.vals, known + {v}, s1.sent)
  {
    hide AddToHeight, Quorum, Tally.Valid, Tally.Genuine, OwnVote;
    forall w, b | w in s1.sent && PrecommitFor(w, w.height, b)
      ensures Quorum(cfg.vals, known + {v}, Prevote, w.height, w.round, Some(b))
    {
      if w in s.sent {
      } else {
        assert w == v && HasMajority(s, s.round, Some(b));
        var t := s.votes.prevotes[s.round];
        assert s.votes.Holds(cfg.verifyVote, t, Prevote, s.round);
        MajorityIsQuorum(cfg.vals, known, t);
      }
      QuorumMonotone(cfg.vals, known, known + {v}, Prevote, w.height, w.round, Some(b));
    }
  }

  lemma RecordedPrevotes(cfg: Config, env: Env, known: set<Vote>, s: NodeState, s1: NodeState, v: Vote)
    requires GoodSchedule(cfg.vals) && PrevotesFaithful(cfg.vals, known, s.sent) && SignerInv(cfg, s)
    requires Recorded(cfg, env, s, s1, v)
    requires v.vtype == Prevote ==> PrevoteJustified(cfg, known, s, v.blockHash)
    ensures PrevotesFaithful(cfg.vals, known + {v}, s1.sent)
  {
    hide AddToHeight, Overtaken, SignerInv, OwnVote;
    RecordedSigner(cfg, env, s, s1, v);
    forall p, w, b | w in s1.sent && p in s1.sent && PrecommitFor(w, w.height, b) && PrevoteForOther(p, w.height, b)
      && w.round < p.round
      ensures Overtaken(cfg.vals, known + {v}, w.height, w.round, b, p.round)
    {
      if !(w in s.sent && p in s.sent) {
        assert w in s.sent && p == v;
        assert SignerBefore(s.signer, v);
        assert Bound(s) == s.round;
      }
      OvertakenMonotone(cfg.vals, known, known + {v}, w.height, w.round, b, p.round, p.round);
    }
  }

  /** The present of a node after recording an own vote. */
  lemma RecordedPresent(cfg: Config, env: Env, known: set<Vote>, s: NodeState, s1: NodeState, v: Vote, bound: int)
    requires GoodSchedule(cfg.vals) && Present(cfg, known, s, bound) && SignerInv(cfg, s)
    requires Recorded(cfg, env, s, s1, v) && bound <= Bound(s1)
    requires v.vtype == Precommit ==> PrecommitJustified(cfg, s, v.blockHash)
    ensures Present(cfg, known + {v}, s1, Bound(s1))
  {
    hide HeightVotes.Valid, HeightVotes.Within, AddToHeight, Overtaken, SignerInv, OwnVote, Authentic;
    PresentMonotone(cfg, known, known + {v}, s, bound, Bound(s1));
    AddToHeightCorrect(cfg.verifyVote, env.now, s.votes, v, known + {v});
    MajoritiesKept(cfg, s, s1);
  }

  lemma MajoritiesKept(cfg: Config, s: NodeState, s1: NodeState)
    requires HeightStep(cfg.verifyVote, s.votes, s1.votes)
    ensures forall r, key :: HasMajority(s, r, key) ==> HasMajority(s1, r, key)
  {
    hide HeightVotes.Valid;
  }

  // ----- Casting -----

  lemma CastSafe(cfg: Config, env: Env, others: set<Vote>, s: NodeState, vtype: VoteType, hash: Option<Bytes>)
    requires GoodSchedule(cfg.vals) && s.halt == Running && (vtype == Prevote || vtype == Precommit)
    requires Past(cfg, others + s.sent, s)
    requires Present(cfg, others + s.sent, s, if vtype == Prevote then Bound(s) else s.round + 1)
    requires vtype == Prevote ==> PrevoteJustified(cfg, others + s.sent, s, hash)
    requires vtype == Precommit ==> PrecommitJustified(cfg, s, hash)
    ensures var cast := Cast(cfg, env, s, vtype, hash);
      && (cast.None? ==> NodeInv(cfg, others + s.sent, s))
      && (cast.Some? ==> NodeInv(cfg, others + cast.value.0.sent, cast.value.0) && Advances(s, cast.value.0))
  {
    hide AddToHeight, HeightVotes.Valid, HeightVotes.Within, Overtaken, SignerInv, Cast;
    CastRecords(cfg, env, s, vtype, hash);
    var cast := Cast(cfg, env, s, vtype, hash);
    var known := others + s.sent;
    if cast.Some? {
      var (s1, v) := cast.value;
      RecordedPast(cfg, env, known, s, s1, v);
      var bound := if vtype == Prevote then Bound(s) else s.round + 1;
      RecordedPresent(cfg, env, known, s, s1, v, bound);
      assert known + {v} == others + s1.sent;
    } else if OwnIndex(cfg, s).None? {
      NotAValidator(cfg, known, s);
    }
  }

  /** A node outside the validator set has sent no vote at this height. */
  lemma NotAValidator(cfg: Config, known: set<Vote>, s: NodeState)
    requires SignerInv(cfg, s) && s.vals == cfg.vals(s.height) && OwnIndex(cfg, s).None?
    ensures forall bound :: LockHeld(cfg, known, s, bound)
  {
    forall w | w in s.sent ensures w.height != s.height { assert OwnVote(cfg, w); }
  }
}
