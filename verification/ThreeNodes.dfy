/**
 * Three honest validators a, b and c with power 4, 3 and 3, so that seven is a quorum, and the steps
 * a node takes when it hears one other validator.
 */
module ThreeNodes {
  import opened Types
  import opened Validators
  import opened VoteSets
  import opened Node
  import opened Network
  import Privval
  import Rotation

  type Id = i: int | 0 <= i < 3

  function KeyOf(i: Id): Bytes { seq(PUBLIC_KEY_SIZE, _ => i + 1) }

  function NameOf(i: Id): string { if i == 0 then "a" else if i == 1 then "b" else "c" }

  function PowerOfId(i: Id): int { if i == 0 then 4 else 3 }

  function Member(i: Id): Validator {
    Validator(NameOf(i), i, KeyOf(i), PowerOfId(i), if i == 0 then 1 else 0)
  }

  const THREE: ValidatorSet := ValidatorSet([Member(0), Member(1), Member(2)], Member(0), 10)

  function AnySignature(): Bytes { seq(SIGNATURE_SIZE, _ => 0) }

  const X := Block([1], [])
  const Y := Block([2], [])

  /** Every signature verifies, block hashes are the headers, and all three validators are honest. */
  const EASY: Protocol := Protocol(
    {KeyOf(0), KeyOf(1), KeyOf(2)},
    (_, _, _) => true,
    (_, _, _) => true,
    header => header,
    (_, _) => AnySignature(),
    _ => THREE)

  function Cfg(i: Id): Config { ConfigOf(EASY, KeyOf(i)) }

  lemma KeysDiffer(i: Id, j: Id)
    requires i != j
    ensures KeyOf(i) != KeyOf(j)
  {
    assert KeyOf(i)[0] == i + 1 && KeyOf(j)[0] == j + 1;
  }

  lemma ThreeIsValid()
    ensures THREE.Valid() && THREE.TwoThirdsMajority() == 7
    ensures |THREE.validators| == 3 && forall i: Id :: THREE.validators[i] == Member(i)
  {
    SumOfThree(Member(0), Member(1), Member(2));
  }

  lemma SumOfThree(x: Validator, y: Validator, z: Validator)
    ensures SumPower([x, y, z]) == x.votingPower + y.votingPower + z.votingPower
  {
    assert [x, y, z][..2] == [x, y] && [x, y][..1] == [x] && [x][..0] == [];
    assert SumPower([x]) == x.votingPower;
    assert SumPower([x, y]) == x.votingPower + y.votingPower;
  }

  lemma FindOwnKey(i: Id)
    ensures FindKey(THREE.validators, KeyOf(i)) == Some(i)
  {
    ThreeIsValid();
    var r := FindKey(THREE.validators, KeyOf(i));
    assert THREE.validators[i].publicKey == KeyOf(i);
    if r != Some(i) { KeysDiffer(r.value, i); }
  }

  /** The set is the one built from zero priorities. */
  lemma ThreeFromZero()
    ensures Rotation.InitialPriorities(THREE.validators) == THREE.validators
    ensures Rotation.BalancedSet(THREE)
  {
    ThreeIsValid();
    Rotation.InitialIsBalanced(THREE.validators);
    assert forall i: Id :: Rotation.InitialPriorities(THREE.validators)[i] == THREE.validators[i];
    assert Rotation.Best(THREE.validators) == 0;
  }

  /** The proposer of the first three rounds: a, b and c. */
  lemma Proposers()
    ensures Rotation.ProposerForRound(THREE, 0).publicKey == KeyOf(0)
    ensures Rotation.ProposerForRound(THREE, 1) == Rotation.Increment(THREE, 1).proposer
    ensures Rotation.ProposerForRound(THREE, 1).publicKey == KeyOf(1)
    ensures Rotation.ProposerForRound(THREE, 2).publicKey == KeyOf(2)
    ensures Rotation.ProposerForRound(THREE, 2).name == NameOf(2)
    ensures Rotation.ProposerForRound(THREE, 0).name == NameOf(0)
  {
    ThreeFromZero();
    Rotation.IncrementKeepsBalanced(THREE, 1);
    Rotation.IncrementKeepsBalanced(THREE, 2);
    Rotation.RotateTimesUnfold(THREE.validators, 10, 1);
    Rotation.RotateTimesUnfold(THREE.validators, 10, 2);
    Rotation.LedgerStart(THREE.validators, 10);
    var one := [Member(0).(proposerPriority := -5), Member(1).(proposerPriority := 3),
                Member(2).(proposerPriority := 3)];
    var two := [Member(0).(proposerPriority := -1), Member(1).(proposerPriority := -4),
                Member(2).(proposerPriority := 6)];
    RotateFirst(one);
    RotateSecond(one, two);
  }

  lemma BestOfThree(vals: seq<Validator>)
    requires |vals| == 3
    ensures var b := if Rotation.Beats(vals[1], vals[0]) then 1 else 0;
      Rotation.Best(vals) == if Rotation.Beats(vals[2], vals[b]) then 2 else b
  {
    assert Rotation.BestAmong(vals, 1) == 0;
    assert Rotation.BestAmong(vals, 2) == if Rotation.Beats(vals[1], vals[0]) then 1 else 0;
  }

  lemma RotateFirst(one: seq<Validator>)
    requires one == [Member(0).(proposerPriority := -5), Member(1).(proposerPriority := 3),
                     Member(2).(proposerPriority := 3)]
    ensures Rotation.RotateOnce(THREE.validators, 10) == one && Rotation.Best(one) == 1
  {
    hide KeyOf;
    var credited := Rotation.CreditAll(THREE.validators);
    assert credited == [Member(0).(proposerPriority := 5), Member(1).(proposerPriority := 3),
                        Member(2).(proposerPriority := 3)];
    BestOfThree(credited);
    BestOfThree(one);
    assert !LexLess("c", "b");
  }

  lemma RotateSecond(one: seq<Validator>, two: seq<Validator>)
    requires one == [Member(0).(proposerPriority := -5), Member(1).(proposerPriority := 3),
                     Member(2).(proposerPriority := 3)]
    requires two == [Member(0).(proposerPriority := -1), Member(1).(proposerPriority := -4),
                     Member(2).(proposerPriority := 6)]
    ensures Rotation.RotateOnce(one, 10) == two && Rotation.Best(two) == 2
  {
    hide KeyOf;
    var credited := Rotation.CreditAll(one);
    assert credited == [Member(0).(proposerPriority := -1), Member(1).(proposerPriority := 6),
                        Member(2).(proposerPriority := 6)];
    BestOfThree(credited);
    BestOfThree(two);
    assert !LexLess("c", "b");
  }

  // ----- Votes and vote sets of the run -----

  /** The vote of a validator at height 1. */
  function Ballot1(i: Id, vtype: VoteType, round: int, hash: Option<Bytes>): Vote {
    Vote(vtype, 1, round, hash, 0, NameOf(i), i, AnySignature())
  }

  /** A vote set holding one vote. */
  function T1(v: Vote): Tally
    requires 0 <= v.index < 3
  {
    Record(EmptyTally(1, v.round, v.vtype, THREE), v, PowerOfId(v.index))
  }

  /** A vote set holding two votes. */
  function T2(v: Vote, w: Vote): Tally
    requires 0 <= v.index < 3 && 0 <= w.index < 3
  {
    Record(T1(v), w, PowerOfId(w.index))
  }

  lemma T1Facts(v: Vote)
    requires 0 <= v.index < 3
    ensures T1(v).maj23 == None && !T1(v).HasTwoThirdsAny()
    ensures T1(v).height == 1 && T1(v).round == v.round && T1(v).vtype == v.vtype && T1(v).vals == THREE
    ensures T1(v).votes == map[v.index := v]
  {
    hide BlockKey, KeyOf;
    ThreeIsValid();
  }

  lemma T2Facts(v: Vote, w: Vote)
    requires 0 <= v.index < 3 && 0 <= w.index < 3
    ensures T2(v, w).maj23 ==
      if BlockKey(v.blockHash) == BlockKey(w.blockHash) && PowerOfId(v.index) + PowerOfId(w.index) >= 7
      then Some(BlockKey(w.blockHash)) else None
    ensures T2(v, w).HasTwoThirdsAny() <==> PowerOfId(v.index) + PowerOfId(w.index) >= 7
    ensures T2(v, w).height == 1 && T2(v, w).round == v.round && T2(v, w).vtype == v.vtype && T2(v, w).vals == THREE
    ensures T2(v, w).votes == map[v.index := v, w.index := w]
  {
    hide BlockKey, KeyOf;
    ThreeIsValid();
  }

  lemma AddFirst(i: Id, vtype: VoteType, round: int, hash: Option<Bytes>)
    ensures AddVote(EASY.verifyVote, 0, EmptyTally(1, round, vtype, THREE), Ballot1(i, vtype, round, hash))
      == (T1(Ballot1(i, vtype, round, hash)), Added)
  {
    hide BlockKey;
    ThreeIsValid();
    assert |AnySignature()| == SIGNATURE_SIZE && |KeyOf(i)| == PUBLIC_KEY_SIZE;
    assert THREE.validators[i] == Member(i);
  }

  lemma AddSecond(i: Id, j: Id, vtype: VoteType, round: int, g: Option<Bytes>, h: Option<Bytes>)
    requires i != j
    ensures AddVote(EASY.verifyVote, 0, T1(Ballot1(i, vtype, round, g)), Ballot1(j, vtype, round, h))
      == (T2(Ballot1(i, vtype, round, g), Ballot1(j, vtype, round, h)), Added)
  {
    hide BlockKey;
    ThreeIsValid();
    T1Facts(Ballot1(i, vtype, round, g));
    assert |AnySignature()| == SIGNATURE_SIZE && |KeyOf(j)| == PUBLIC_KEY_SIZE;
    assert THREE.validators[j] == Member(j);
  }

  // ----- What a node looks like at height 1 -----

  datatype Sketch = Sketch(
    id: Id,
    round: nat,
    step: RoundStep,
    block: Option<Block>,
    locked: Option<Block>,
    valid: Option<Block>,
    prevotes: map<int, Tally>,
    precommits: map<int, Tally>,
    signed: (int, int, int))

  ghost predicate Fits(s: NodeState, k: Sketch) {
    && s.height == 1 && s.round == k.round && s.step == k.step && s.vals == THREE
    && s.halt == Running && s.applied == []
    && s.votes == HeightVotes(1, THREE, k.prevotes, k.precommits)
    && s.proposalBlock == k.block && (s.proposal.None? <==> k.block.None?)
    && s.lockedBlock == k.locked && s.validBlock == k.valid && (k.valid.None? ==> s.validRound == -1)
    && (s.signer.height, s.signer.round, s.signer.step) == k.signed
  }

  /** A transition to a state that fits, with a vote sent on the way. */
  ghost predicate Reaches(s: NodeState, s': NodeState, k: Sketch, sent: set<Vote>) {
    Fits(s', k) && s.sent + sent <= s'.sent
  }

  function Surroundings(newBlock: Option<Block>): Env { Env(0, newBlock, true, true) }

  function StepOf(vtype: VoteType): int { if vtype == Prevote then 1 else 2 }

  ghost predicate MaySign(k: Sketch, step: int) {
    Privval.HRSBefore(k.signed.0, k.signed.1, k.signed.2, 1, k.round, step)
  }

  /** The sketch after an own vote in a round that has no vote of that kind yet. */
  function Voted(k: Sketch, vtype: VoteType, hash: Option<Bytes>): Sketch {
    var t := T1(Ballot1(k.id, vtype, k.round, hash));
    k.(prevotes := if vtype == Prevote then k.prevotes[k.round := t] else k.prevotes,
       precommits := if vtype == Prevote then k.precommits else k.precommits[k.round := t],
       signed := (1, k.round, StepOf(vtype)))
  }

  lemma CastOwn(s: NodeState, k: Sketch, vtype: VoteType, hash: Option<Bytes>, newBlock: Option<Block>)
    requires Fits(s, k) && MaySign(k, StepOf(vtype))
    requires (vtype == Prevote && k.round !in k.prevotes) || (vtype == Precommit && k.round !in k.precommits)
    ensures var cast := Cast(Cfg(k.id), Surroundings(newBlock), s, vtype, hash);
      && cast.Some? && cast.value.1 == Ballot1(k.id, vtype, k.round, hash)
      && Reaches(s, cast.value.0, Voted(k, vtype, hash), {cast.value.1})
  {
    hide AddVote, T1, FindKey;
    ThreeIsValid();
    FindOwnKey(k.id);
    var env := Surroundings(newBlock);
    var ballot := Ballot(env, s, vtype, hash, k.id);
    var req := VoteRequest(ballot);
    Privval.CheckHRSMeaning(s.signer, req.height, req.round, req.step);
    AddFirst(k.id, vtype, k.round, hash);
    assert ballot.(signature := AnySignature()) == Ballot1(k.id, vtype, k.round, hash);
  }

  /** An own vote alone starts nothing further. */
  lemma VoteOwn(s: NodeState, k: Sketch, vtype: VoteType, hash: Option<Bytes>, newBlock: Option<Block>)
    requires Fits(s, k) && MaySign(k, StepOf(vtype))
    requires (vtype == Prevote && k.round !in k.prevotes) || (vtype == Precommit && k.round !in k.precommits)
    ensures Reaches(s, SignAndSendVote(Cfg(k.id), Surroundings(newBlock), s, vtype, hash), Voted(k, vtype, hash),
                    {Ballot1(k.id, vtype, k.round, hash)})
  {
    hide Cast, T1;
    CastOwn(s, k, vtype, hash, newBlock);
    T1Facts(Ballot1(k.id, vtype, k.round, hash));
  }

  // ----- Steps of one node -----

  /** The own vote of a round is in, alone. */
  ghost predicate VotedAlone(k: Sketch, vtype: VoteType, hash: Option<Bytes>) {
    var votes := if vtype == Prevote then k.prevotes else k.precommits;
    k.round in votes && votes[k.round] == T1(Ballot1(k.id, vtype, k.round, hash))
  }

  /** The sketch once a second validator's vote has come in beside the own vote. */
  function Heard(k: Sketch, j: Id, vtype: VoteType, own: Option<Bytes>, other: Option<Bytes>): Sketch {
    var t := T2(Ballot1(k.id, vtype, k.round, own), Ballot1(j, vtype, k.round, other));
    if vtype == Prevote then k.(prevotes := k.prevotes[k.round := t])
    else k.(precommits := k.precommits[k.round := t])
  }

  ghost predicate Enough(k: Sketch, j: Id) { j != k.id && PowerOfId(k.id) + PowerOfId(j) >= 7 }

  lemma HearSecond(s: NodeState, k: Sketch, j: Id, vtype: VoteType, own: Option<Bytes>, other: Option<Bytes>)
    requires Fits(s, k) && j != k.id && (vtype == Prevote || vtype == Precommit) && VotedAlone(k, vtype, own)
    ensures var (votes, added) := AddToHeight(EASY.verifyVote, 0, s.votes, Ballot1(j, vtype, k.round, other));
      added == Added && Fits(s.(votes := votes), Heard(k, j, vtype, own, other))
  {
    hide AddVote, T1, T2;
    AddSecond(k.id, j, vtype, k.round, own, other);
  }

  /** A prevote quorum for the proposed block: lock it and precommit it. */
  function Locking(k: Sketch, j: Id, b: Block): Sketch {
    var hash := Some(b.header);
    Voted(Heard(k, j, Prevote, hash, hash).(step := PrecommitStep, locked := Some(b), valid := Some(b)), Precommit,
          hash)
  }

  lemma LockStep(s: NodeState, k: Sketch, j: Id, b: Block)
    requires Fits(s, k) && k.step == PrevoteStep && k.block == Some(b) && Enough(k, j) && !IsHashEmpty(Some(b.header))
    requires VotedAlone(k, Prevote, Some(b.header)) && k.round !in k.precommits && MaySign(k, 2)
    ensures Reaches(s, Handle(Cfg(k.id), Surroundings(None), s,
                              VoteEvent(Ballot1(j, Prevote, k.round, Some(b.header)))),
                    Locking(k, j, b), {Ballot1(k.id, Precommit, k.round, Some(b.header))})
  {
    hide AddToHeight, T1, T2, SignAndSendVote;
    var hash := Some(b.header);
    HearSecond(s, k, j, Prevote, hash, hash);
    T2Facts(Ballot1(k.id, Prevote, k.round, hash), Ballot1(j, Prevote, k.round, hash));
    var (votes, added) := AddToHeight(EASY.verifyVote, 0, s.votes, Ballot1(j, Prevote, k.round, hash));
    var s1 := s.(votes := votes, step := PrecommitStep, lockedRound := s.round, lockedBlock := s.proposalBlock,
                 validRound := s.round, validBlock := s.proposalBlock);
    assert EnterPrecommit(Cfg(k.id), Surroundings(None), s.(votes := votes), 1, k.round)
      == SignAndSendVote(Cfg(k.id), Surroundings(None), s1, Precommit, hash);
    VoteOwn(s1, Heard(k, j, Prevote, hash, hash).(step := PrecommitStep, locked := Some(b), valid := Some(b)),
            Precommit, hash, None);
  }

  /** A prevote quorum for nil: give up the lock and precommit nil. */
  function Unlocking(k: Sketch, j: Id): Sketch {
    Voted(Heard(k, j, Prevote, None, None).(step := PrecommitStep, locked := None), Precommit, None)
  }

  lemma UnlockStep(s: NodeState, k: Sketch, j: Id)
    requires Fits(s, k) && k.step == PrevoteStep && Enough(k, j)
    requires VotedAlone(k, Prevote, None) && k.round !in k.precommits && MaySign(k, 2)
    ensures Reaches(s, Handle(Cfg(k.id), Surroundings(None), s, VoteEvent(Ballot1(j, Prevote, k.round, None))),
                    Unlocking(k, j), {Ballot1(k.id, Precommit, k.round, None)})
  {
    hide AddToHeight, T1, T2, SignAndSendVote;
    HearSecond(s, k, j, Prevote, None, None);
    T2Facts(Ballot1(k.id, Prevote, k.round, None), Ballot1(j, Prevote, k.round, None));
    var (votes, added) := AddToHeight(EASY.verifyVote, 0, s.votes, Ballot1(j, Prevote, k.round, None));
    var s1 := Unlocked(s.(votes := votes, step := PrecommitStep));
    assert EnterPrecommit(Cfg(k.id), Surroundings(None), s.(votes := votes), 1, k.round)
      == SignAndSendVote(Cfg(k.id), Surroundings(None), s1, Precommit, None);
    VoteOwn(s1, Heard(k, j, Prevote, None, None).(step := PrecommitStep, locked := None), Precommit, None, None);
  }

  /** Two different prevotes of quorum power: wait. */
  lemma PrevoteWaitStepTaken(s: NodeState, k: Sketch, j: Id, own: Option<Bytes>, other: Option<Bytes>)
    requires Fits(s, k) && k.step == PrevoteStep && Enough(k, j) && VotedAlone(k, Prevote, own)
    requires BlockKey(own) != BlockKey(other)
    ensures Reaches(s, Handle(Cfg(k.id), Surroundings(None), s, VoteEvent(Ballot1(j, Prevote, k.round, other))),
                    Heard(k, j, Prevote, own, other).(step := PrevoteWaitStep), {})
    ensures Handle(Cfg(k.id), Surroundings(None), s, VoteEvent(Ballot1(j, Prevote, k.round, other))).sent == s.sent
  {
    hide AddToHeight, T1, T2, BlockKey;
    HearSecond(s, k, j, Prevote, own, other);
    T2Facts(Ballot1(k.id, Prevote, k.round, own), Ballot1(j, Prevote, k.round, other));
  }

  /** Two precommits of quorum power but for no one block: wait. */
  lemma PrecommitWaitStepTaken(s: NodeState, k: Sketch, j: Id, own: Option<Bytes>, other: Option<Bytes>)
    requires Fits(s, k) && k.step == PrecommitStep && Enough(k, j) && VotedAlone(k, Precommit, own)
    requires BlockKey(own) != BlockKey(other) || BlockKey(own) == None
    ensures Reaches(s, Handle(Cfg(k.id), Surroundings(None), s, VoteEvent(Ballot1(j, Precommit, k.round, other))),
                    Heard(k, j, Precommit, own, other).(step := PrecommitWaitStep), {})
    ensures Handle(Cfg(k.id), Surroundings(None), s, VoteEvent(Ballot1(j, Precommit, k.round, other))).sent == s.sent
  {
    hide AddToHeight, T1, T2, BlockKey;
    HearSecond(s, k, j, Precommit, own, other);
    T2Facts(Ballot1(k.id, Precommit, k.round, own), Ballot1(j, Precommit, k.round, other));
  }

  /** The prevote wait runs out without a majority: precommit nil. */
  lemma PrecommitNilStep(s: NodeState, k: Sketch)
    requires Fits(s, k) && k.step == PrevoteWaitStep && k.round !in k.precommits && MaySign(k, 2)
    requires k.round in k.prevotes && k.prevotes[k.round].maj23 == None
    ensures Reaches(s, Handle(Cfg(k.id), Surroundings(None), s, TimeoutEvent(1, k.round, PrevoteWaitStep)),
                    Voted(k.(step := PrecommitStep), Precommit, None), {Ballot1(k.id, Precommit, k.round, None)})
  {
    hide T1, T2, SignAndSendVote;
    VoteOwn(s.(step := PrecommitStep), k.(step := PrecommitStep), Precommit, None, None);
  }

  /** The proposal does not come: prevote nil. */
  lemma PrevoteNilStep(s: NodeState, k: Sketch)
    requires Fits(s, k) && k.step == ProposeStep && k.block == None && k.round !in k.prevotes && MaySign(k, 1)
    ensures Reaches(s, Handle(Cfg(k.id), Surroundings(None), s, TimeoutEvent(1, k.round, ProposeStep)),
                    Voted(k.(step := PrevoteStep), Prevote, None), {Ballot1(k.id, Prevote, k.round, None)})
  {
    hide T1, T2, SignAndSendVote;
    VoteOwn(s.(step := PrevoteStep), k.(step := PrevoteStep), Prevote, None, None);
  }

  /** The wait for precommits runs out, and the next round has another proposer. */
  lemma NextRoundStep(s: NodeState, k: Sketch)
    requires Fits(s, k) && k.step == PrecommitWaitStep && k.round < 2
    requires Rotation.ProposerForRound(THREE, k.round + 1).publicKey != KeyOf(k.id)
    ensures Reaches(s, Handle(Cfg(k.id), Surroundings(None), s, TimeoutEvent(1, k.round, PrecommitWaitStep)),
                    k.(round := k.round + 1, step := ProposeStep, block := None), {})
  {
    hide KeyOf, CreateProposal, Rotation.ProposerForRound;
  }

  /** The proposal a validator makes for a block of its own. */
  function Fresh(i: Id, round: int, b: Block): Proposal {
    Proposal(1, round, 0, b, -1, [], NameOf(i), AnySignature())
  }

  /** An unlocked node accepts a proposal and prevotes it. */
  lemma AcceptStep(s: NodeState, k: Sketch, j: Id, b: Block)
    requires Fits(s, k) && k.step == ProposeStep && k.block == None && k.locked == None
    requires k.round !in k.prevotes && MaySign(k, 1)
    requires Rotation.ProposerForRound(THREE, k.round).publicKey == KeyOf(j)
    requires Rotation.ProposerForRound(THREE, k.round).name == NameOf(j)
    ensures Reaches(s, Handle(Cfg(k.id), Surroundings(None), s, ProposalEvent(Fresh(j, k.round, b))),
                    Voted(k.(step := PrevoteStep, block := Some(b)), Prevote, Some(b.header)),
                    {Ballot1(k.id, Prevote, k.round, Some(b.header))})
  {
    hide T1, T2, SignAndSendVote, Rotation.ProposerForRound;
    var s1 := s.(proposal := Some(Fresh(j, k.round, b)), proposalBlock := Some(b), step := PrevoteStep);
    VoteOwn(s1, k.(step := PrevoteStep, block := Some(b)), Prevote, Some(b.header), None);
  }

  /** A node enters a round it proposes in, without a block of its own so far. */
  lemma ProposeStepTaken(s: NodeState, k: Sketch, round: nat, b: Block)
    requires Fits(s, k) && k.round <= round && k.locked == None && k.valid == None && round !in k.prevotes
    requires MaySign(k.(round := round), 0)
    requires Rotation.ProposerForRound(THREE, round).publicKey == KeyOf(k.id)
    ensures Reaches(s, EnterNewRound(Cfg(k.id), Surroundings(Some(b)), s, 1, round),
                    Voted(k.(round := round, step := PrevoteStep, block := Some(b)), Prevote, Some(b.header)),
                    {Ballot1(k.id, Prevote, round, Some(b.header))})
  {
    hide T1, T2, SignAndSendVote, Rotation.ProposerForRound, KeyOf, SortedVotes, Privval.CheckHRS;
    var env := Surroundings(Some(b));
    var s1 := s.(round := round, step := ProposeStep, proposal := None, proposalBlock := None, validRound := -1,
                 validBlock := None);
    var p := OwnProposal(env, s1, b);
    var req := ProposalRequest(Cfg(k.id), p);
    Privval.CheckHRSMeaning(s.signer, req.height, req.round, req.step);
    var s2 := s1.(signer := Privval.SignedState(SameMessage, req, AnySignature()),
                  proposal := Some(p.(signature := AnySignature())), proposalBlock := Some(b));
    assert CreateProposal(Cfg(k.id), env, s1) == EnterPrevote(Cfg(k.id), env, s2, 1, round);
    VoteOwn(s2.(step := PrevoteStep),
            k.(round := round, step := PrevoteStep, block := Some(b), signed := (1, round, 0)),
            Prevote, Some(b.header), Some(b));
  }

  /** A precommit quorum for the locked block: apply it. */
  lemma ApplyStep(s: NodeState, k: Sketch, j: Id, b: Block)
    requires Fits(s, k) && k.step == PrecommitStep && k.locked == Some(b) && Enough(k, j)
      && !IsHashEmpty(Some(b.header))
    requires VotedAlone(k, Precommit, Some(b.header))
    ensures var s' := Handle(Cfg(k.id), Surroundings(None), s,
                             VoteEvent(Ballot1(j, Precommit, k.round, Some(b.header))));
      |s'.applied| == 1 && s'.applied[0].height == 1 && s'.applied[0].block == b
  {
    hide AddToHeight, T1, T2;
    var hash := Some(b.header);
    HearSecond(s, k, j, Precommit, hash, hash);
    T2Facts(Ballot1(k.id, Precommit, k.round, hash), Ballot1(j, Precommit, k.round, hash));
  }

  // ----- Hearing of a commit without its block -----

  /** The precommit of another validator is the first of the round and starts nothing. */
  lemma HearFirst(s: NodeState, k: Sketch, i: Id, hash: Option<Bytes>)
    requires Fits(s, k) && k.round !in k.precommits
    ensures var v := Ballot1(i, Precommit, k.round, hash);
      Reaches(s, Handle(Cfg(k.id), Surroundings(None), s, VoteEvent(v)),
              k.(precommits := k.precommits[k.round := T1(v)]), {})
  {
    hide AddVote, T1;
    AddFirst(i, Precommit, k.round, hash);
    T1Facts(Ballot1(i, Precommit, k.round, hash));
  }

  /** A second precommit makes a quorum for a block, and the node has no block at all. */
  lemma NoBlockStep(s: NodeState, k: Sketch, i: Id, j: Id, hash: Option<Bytes>)
    requires Fits(s, k) && k.locked == None && k.block == None && k.step != CommitStep
    requires k.round in k.precommits && k.precommits[k.round] == T1(Ballot1(i, Precommit, k.round, hash))
    requires i != j && PowerOfId(i) + PowerOfId(j) >= 7 && !IsHashEmpty(hash)
    ensures Handle(Cfg(k.id), Surroundings(None), s, VoteEvent(Ballot1(j, Precommit, k.round, hash))).halt == NoBlock
  {
    hide AddVote, T1, T2;
    AddSecond(i, j, Precommit, k.round, hash, hash);
    T2Facts(Ballot1(i, Precommit, k.round, hash), Ballot1(j, Precommit, k.round, hash));
  }

  /** A vote set holding three votes. */
  function T3(u: Vote, v: Vote, w: Vote): Tally
    requires 0 <= u.index < 3 && 0 <= v.index < 3 && 0 <= w.index < 3
  {
    Record(T2(u, v), w, PowerOfId(w.index))
  }

  /** The third of three votes, the last two for one block. */
  lemma AddThird(h: Id, i: Id, j: Id, round: int, hash: Option<Bytes>)
    requires h != i && h != j && i != j && PowerOfId(i) + PowerOfId(j) >= 7 && !IsHashEmpty(hash)
    ensures var u, v, w := Ballot1(h, Precommit, round, None), Ballot1(i, Precommit, round, hash),
        Ballot1(j, Precommit, round, hash);
      && AddVote(EASY.verifyVote, 0, T2(u, v), w) == (T3(u, v, w), Added)
      && T3(u, v, w).maj23 == Some(hash) && T3(u, v, w).vtype == Precommit
  {
    ThreeIsValid();
    var u, v, w := Ballot1(h, Precommit, round, None), Ballot1(i, Precommit, round, hash),
        Ballot1(j, Precommit, round, hash);
    T2Facts(u, v);
    assert |AnySignature()| == SIGNATURE_SIZE && |KeyOf(j)| == PUBLIC_KEY_SIZE;
    assert THREE.validators[j] == Member(j);
  }

  /** A late precommit completes the quorum of round 0 for a block other than the one proposed in round 2. */
  lemma MismatchStep(s: NodeState, k: Sketch, i: Id, j: Id, b: Block, other: Block)
    requires Fits(s, k) && k.round == 2 && k.locked == None && k.block == Some(other) && k.step != CommitStep
    requires k.id != i && k.id != j && i != j && PowerOfId(i) + PowerOfId(j) >= 7
    requires !IsHashEmpty(Some(b.header)) && b.header != other.header
    requires 0 in k.precommits && 2 !in k.precommits && 1 in k.precommits && k.precommits[1].maj23 == Some(None)
    requires k.precommits[0] == T2(Ballot1(k.id, Precommit, 0, None), Ballot1(i, Precommit, 0, Some(b.header)))
    ensures Handle(Cfg(k.id), Surroundings(None), s, VoteEvent(Ballot1(j, Precommit, 0, Some(b.header)))).halt
      == HashMismatch
  {
    hide AddVote, T1, T2, T3;
    var hash := Some(b.header);
    AddThird(k.id, i, j, 0, hash);
    var t := T3(Ballot1(k.id, Precommit, 0, None), Ballot1(i, Precommit, 0, hash), Ballot1(j, Precommit, 0, hash));
    var precommits := k.precommits[0 := t];
    assert CommitRound(precommits, 0) == Some(0);
    assert CommitRound(precommits, 1) == Some(0);
    assert CommitRound(precommits, 2) == Some(0);
  }

  /** A nil vote after two votes of a majority. */
  lemma AddNil(h: Id, i: Id, j: Id, round: int, hash: Option<Bytes>)
    requires h != i && h != j && i != j && PowerOfId(h) + PowerOfId(i) >= 7 && !IsHashEmpty(hash)
    ensures var u, v, w := Ballot1(h, Prevote, round, hash), Ballot1(i, Prevote, round, hash),
        Ballot1(j, Prevote, round, None);
      && AddVote(EASY.verifyVote, 0, T2(u, v), w) == (T3(u, v, w), Added)
      && T3(u, v, w).maj23 == Some(hash) && j in T3(u, v, w).votes && T3(u, v, w).votes[j].blockHash == None
  {
    ThreeIsValid();
    var u, v, w := Ballot1(h, Prevote, round, hash), Ballot1(i, Prevote, round, hash), Ballot1(j, Prevote, round, None);
    T2Facts(u, v);
    assert |AnySignature()| == SIGNATURE_SIZE && |KeyOf(j)| == PUBLIC_KEY_SIZE;
    assert THREE.validators[j] == Member(j);
  }

  /** A nil prevote that comes after the precommit is recorded, and nothing else happens. */
  lemma LatePrevoteStep(s: NodeState, k: Sketch, i: Id, j: Id, hash: Option<Bytes>)
    requires Fits(s, k) && k.step == PrecommitStep && k.round in k.prevotes && !IsHashEmpty(hash)
    requires k.id != i && k.id != j && i != j && PowerOfId(k.id) + PowerOfId(i) >= 7
    requires k.prevotes[k.round] == T2(Ballot1(k.id, Prevote, k.round, hash), Ballot1(i, Prevote, k.round, hash))
    ensures var t := T3(Ballot1(k.id, Prevote, k.round, hash), Ballot1(i, Prevote, k.round, hash),
                        Ballot1(j, Prevote, k.round, None));
      Reaches(s, Handle(Cfg(k.id), Surroundings(None), s, VoteEvent(Ballot1(j, Prevote, k.round, None))),
              k.(prevotes := k.prevotes[k.round := t]), {})
  {
    hide AddVote, T1, T2, T3;
    AddNil(k.id, i, j, k.round, hash);
  }
}
