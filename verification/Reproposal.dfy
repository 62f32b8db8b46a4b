/**
 * A block proposed again can be refused by all: a run of three honest validators, none faulty. b locks X on
 * the prevotes of a and its own, and then records a nil prevote of c. It moves to round 1, where it proposes
 * X again with the three prevotes of round 0 as proof of lock, which no node accepts.
 */
module Reproposal {
  import opened Types
  import opened Validators
  import opened VoteSets
  import opened Node
  import opened NodeInvariants
  import opened Network
  import opened Agreement
  import opened ThreeNodes
  import opened Split
  import Responses
  import Duties
  import Rotation

  /** b locked on X, having recorded the prevotes of all three. */
  function BProof(): Tally {
    T3(Ballot1(1, Prevote, 0, XH), Ballot1(0, Prevote, 0, XH), Ballot1(2, Prevote, 0, None))
  }

  function BLocked(): Sketch { Locking(Prevoting(Blank(1), X), 0, X) }

  function BHeard(): Sketch { BLocked().(prevotes := BLocked().prevotes[0 := BProof()]) }

  function BWaiting(): Sketch { Waiting(BHeard(), 0, XH, None) }

  function AWaiting(): Sketch {
    Heard(Prevoting(Blank(0), X), 2, Prevote, XH, None).(step := PrevoteWaitStep)
  }

  ghost predicate Stands(n: Net, k: Sketch) { Reachable(n) && Everyone(n) && Fits(At(n, k.id), k) }

  /** b locks X and hears that c prevoted nil; c timed out. */
  lemma BHears(n: Net) returns (n': Net)
    requires Stage(n, Prevoting(Blank(0), X), Blank(2)) && BFits(n, Blank(1))
    requires Ballot1(0, Prevote, 0, XH) in n.soup
    ensures Stands(n', BHeard()) && Stands(n', Prevoting(Blank(0), X)) && Ballot1(2, Prevote, 0, None) in n'.soup
  {
    hide Fits, Handle, Reachable, Everyone, At, T1, T2, T3, KeyOf, Rotation.ProposerForRound;
    Proposers();
    TwoBlocks();
    var env, b1 := Surroundings(None), Prevoting(Blank(1), X);
    AcceptStep(At(n, 1), Blank(1), 0, X);
    var n1 := Take(n, Blank(1), env, ProposalEvent(Fresh(0, 0, X)), b1, {Ballot1(1, Prevote, 0, XH)});
    LockStep(At(n1, 1), b1, 0, X);
    var n2 := Take(n1, b1, env, VoteEvent(Ballot1(0, Prevote, 0, XH)), BLocked(), {Ballot1(1, Precommit, 0, XH)});
    PrevoteNilStep(At(n2, 2), Blank(2));
    var n3 := Take(n2, Blank(2), env, TimeoutEvent(1, 0, ProposeStep), PrevotingNil(Blank(2)),
                   {Ballot1(2, Prevote, 0, None)});
    LatePrevoteStep(At(n3, 1), BLocked(), 0, 2, XH);
    n' := Take(n3, BLocked(), env, VoteEvent(Ballot1(2, Prevote, 0, None)), BHeard(), {});
  }

  /** a sees no majority and precommits nil, so that b waits for the next round. */
  lemma BWaits(n: Net) returns (n': Net)
    requires Stands(n, BHeard()) && Stands(n, Prevoting(Blank(0), X)) && Ballot1(2, Prevote, 0, None) in n.soup
    ensures Stands(n', BWaiting())
  {
    hide Fits, Handle, Reachable, Everyone, At, T1, T2, T3, KeyOf, BlockKey;
    TwoBlocks();
    var env, a := Surroundings(None), Prevoting(Blank(0), X);
    PrevoteWaitStepTaken(At(n, 0), a, 2, XH, None);
    var n1 := Take(n, a, env, VoteEvent(Ballot1(2, Prevote, 0, None)), AWaiting(), {});
    T2Facts(Ballot1(0, Prevote, 0, XH), Ballot1(2, Prevote, 0, None));
    PrecommitNilStep(At(n1, 0), AWaiting());
    var n2 := Take(n1, AWaiting(), env, TimeoutEvent(1, 0, PrevoteWaitStep),
                   Voted(AWaiting().(step := PrecommitStep), Precommit, None), {Ballot1(0, Precommit, 0, None)});
    PrecommitWaitStepTaken(At(n2, 1), BHeard(), 0, XH, None);
    n' := Take(n2, BHeard(), env, VoteEvent(Ballot1(0, Precommit, 0, None)), BWaiting(), {});
  }

  lemma BState(s: NodeState)
    requires Fits(s, BWaiting())
    ensures s.halt == Running && s.height == 1 && s.round == 0 && s.vals == THREE && s.validBlock == Some(X)
    ensures forall r :: r in s.votes.prevotes <==> r == 0
    ensures s.votes.prevotes[0] == BProof() && (s.signer.height, s.signer.round, s.signer.step) == (1, 0, 2)
  {
    hide T1, T2, T3;
  }

  /** The proposal that b makes in round 1. */
  function Again(s: NodeState): Option<Proposal> { Responses.OwnOffer(Cfg(1), Surroundings(None), s, 1) }

  /** What b has to be like for its proposal to be refused. */
  ghost predicate BReady(s: NodeState) {
    && s.halt == Running && s.height == 1 && s.vals == THREE && s.validBlock == Some(X)
    && (forall r :: r in s.votes.prevotes <==> r == 0) && s.votes.prevotes[0] == BProof()
    && (s.signer.height, s.signer.round, s.signer.step) == (1, 0, 2)
  }

  lemma BIsReady(n: Net)
    requires Stands(n, BWaiting())
    ensures Everyone(n) && BReady(At(n, 1))
  {
    hide Reachable, Everyone, At, T1, T2, T3, Fits;
    BState(At(n, 1));
  }

  lemma OfferMade(run: seq<Net>, s: NodeState)
    requires run != [] && Duties.RunsAt(EASY, run, |run| - 1, KeyOf(1)) && run[|run| - 1].nodes[KeyOf(1)] == s
    requires BReady(s)
    ensures Again(s).Some? && Again(s).value.block == X && Again(s).value.polRound == 0
  {
    hide IsRun, GoodSchedule, Responses.OwnOffer, KeyOf, Rotation.ProposerForRound, BProof, Duties.ListsAll;
    Keys();
    Duties.ProposesInTurn(EASY, run, |run| - 1, KeyOf(1), Surroundings(None), 1);
  }

  lemma RefusedIn(run: seq<Net>, s: NodeState)
    requires run != [] && Duties.RunsAt(EASY, run, |run| - 1, KeyOf(1)) && run[|run| - 1].nodes[KeyOf(1)] == s
    requires BReady(s)
    ensures Again(s).Some? && Again(s).value.block == X && Again(s).value.polRound == 0
    ensures !POLAccepted(Cfg(1), THREE, Again(s).value)
  {
    hide IsRun, GoodSchedule, Responses.OwnOffer, KeyOf, POLAccepted, BProof, Duties.AllFor;
    OfferMade(run, s);
    Duties.ReproposalAcceptedIff(EASY, run, |run| - 1, KeyOf(1), Surroundings(None), 1);
    NilInProof();
  }

  lemma NilInProof()
    ensures !Duties.AllFor(BProof(), X.header)
  {
    hide T3;
    TwoBlocks();
    AddNil(1, 0, 2, 0, XH);
  }

  /** All three validators are honest, and yet what b proposes again is accepted by no node in any state. */
  lemma ReproposalRefused() returns (run: seq<Net>)
    ensures GoodSchedule(EASY.vals) && IsRun(EASY, run) && Faulty(EASY, 1) == {} && Everyone(run[|run| - 1])
    ensures var s := At(run[|run| - 1], 1);
      && s.halt == Running && s.validBlock == Some(X) && Again(s).Some? && Again(s).value.block == X
      && forall i: Id, env, other: NodeState :: other.vals == THREE ==>
           !Responses.AcceptableProposal(Cfg(i), env, other, Again(s).value)
  {
    hide Initial, Next, GoodSchedule, Faulty, Fits, BWaiting, Stage, BFits, BHeard, Responses.OwnOffer, POLAccepted,
      Rotation.ProposerForRound, KeyOf, Reachable;
    var n0 := Beginning();
    var n1 := BHears(n0);
    var n2 := BWaits(n1);
    BIsReady(n2);
    run := RunTo(n2);
    NobodyFaulty();
    var s := At(n2, 1);
    RefusedIn(run, s);
    forall i: Id ensures !POLAccepted(Cfg(i), THREE, Again(s).value) { SameProof(Cfg(1), Cfg(i), Again(s).value); }
  }

  lemma RunTo(n: Net) returns (run: seq<Net>)
    requires Reachable(n)
    ensures IsRun(EASY, run) && run[|run| - 1] == n
  {
    run :| IsRun(EASY, run) && run[|run| - 1] == n;
  }

  lemma SameProof(a: Config, b: Config, q: Proposal)
    requires a.verifyVote == b.verifyVote && a.hashHeader == b.hashHeader
    ensures POLAccepted(a, THREE, q) <==> POLAccepted(b, THREE, q)
  {
    hide KeyOf, PowerOf, Authentic;
    assert forall v :: POLVoteAccepted(a, THREE, q, v) <==> POLVoteAccepted(b, THREE, q, v);
  }
}
