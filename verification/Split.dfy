/**
 * Unconditional agreement fails: a run of three honest validators, none faulty, in which two of them
 * apply different blocks at the same height.
 *
 * In round 0, a and b lock on X and precommit it, and b sees both precommits, applies X and leaves the
 * height. c missed the proposal and precommits nil, so a and c move on. In round 1 nobody proposes; a
 * and c prevote nil, which is a quorum, and a gives up its lock. In round 2, c proposes Y, and a applies it.
 *
 * Two other runs of the same three stop c, which panics when X is committed and it holds no block or Y.
 */
module Split {
  import opened Types
  import opened VoteSets
  import opened Node
  import opened NodeInvariants
  import opened NodeSafety
  import opened Network
  import opened Agreement
  import opened ThreeNodes
  import Rotation

  ghost predicate Reachable(n: Net) {
    exists run :: IsRun(EASY, run) && run[|run| - 1] == n
  }

  ghost predicate Everyone(n: Net) { forall i: Id :: KeyOf(i) in n.nodes }

  ghost function At(n: Net, i: Id): NodeState
    requires Everyone(n)
  {
    n.nodes[KeyOf(i)]
  }

  /** An event whose votes have all been cast. */
  ghost predicate Available(n: Net, e: Event) {
    match e
    case ProposalEvent(p) => p.polVotes == []
    case VoteEvent(v) => v in n.soup
    case TimeoutEvent(_, _, _) => true
  }

  lemma ReachNext(n: Net, a: Action)
    requires Reachable(n) && Allowed(EASY, n, a)
    ensures Reachable(Perform(EASY, n, a))
  {
    hide Allowed, Perform, Initial;
    var run :| IsRun(EASY, run) && run[|run| - 1] == n;
    var longer := run + [Perform(EASY, n, a)];
    forall i | 0 <= i < |longer| - 1 ensures Next(EASY, longer[i], longer[i + 1]) {
      if i < |run| - 1 { assert Next(EASY, run[i], run[i + 1]); }
    }
    assert IsRun(EASY, longer) && longer[|longer| - 1] == Perform(EASY, n, a);
  }

  /** One validator handles one event. */
  lemma Deliver1(n: Net, i: Id, env: Env, e: Event) returns (n': Net)
    requires Reachable(n) && Everyone(n) && Available(n, e)
    ensures Reachable(n') && Everyone(n') && n.soup <= n'.soup
    ensures At(n', i) == Handle(Cfg(i), env, At(n, i), e) && At(n', i).sent <= n'.soup
    ensures forall j: Id :: j != i ==> At(n', j) == At(n, j)
  {
    hide Handle, Reachable, KeyOf, Authentic;
    var a := Deliver(KeyOf(i), env, e);
    assert CarriedVotes(e) <= n.soup;
    ReachNext(n, a);
    n' := Perform(EASY, n, a);
    forall j: Id | j != i ensures At(n', j) == At(n, j) { KeysDiffer(i, j); }
  }

  /** One step of the validator a sketch describes; the others stay as they are. */
  lemma Take(n: Net, k: Sketch, env: Env, e: Event, k': Sketch, sent: set<Vote>) returns (n': Net)
    requires Reachable(n) && Everyone(n) && Available(n, e) && k'.id == k.id
    requires Reaches(At(n, k.id), Handle(Cfg(k.id), env, At(n, k.id), e), k', sent)
    ensures Reachable(n') && Everyone(n') && n.soup + sent <= n'.soup && Fits(At(n', k.id), k')
    ensures forall j: Id :: j != k.id ==> At(n', j) == At(n, j)
  {
    hide Handle, Reachable, Everyone, At, Fits;
    n' := Deliver1(n, k.id, env, e);
  }

  // ----- The sketches of the run -----

  const XH := Some(X.header)
  const YH := Some(Y.header)

  function Blank(i: Id): Sketch {
    Sketch(i, 0, ProposeStep, None, None, None, map[], map[], (0, 0, 0))
  }

  function Prevoting(k: Sketch, b: Block): Sketch {
    Voted(k.(step := PrevoteStep, block := Some(b)), Prevote, Some(b.header))
  }

  function PrevotingNil(k: Sketch): Sketch { Voted(k.(step := PrevoteStep), Prevote, None) }

  function Onward(k: Sketch): Sketch { k.(round := k.round + 1, step := ProposeStep, block := None) }

  function Waiting(k: Sketch, j: Id, own: Option<Bytes>, other: Option<Bytes>): Sketch {
    Heard(k, j, Precommit, own, other).(step := PrecommitWaitStep)
  }

  /** After round 0: a is locked on X, c has precommitted nil, both are in round 1. */
  function ALocked(): Sketch { Locking(Prevoting(Blank(0), X), 1, X) }

  function CWait(): Sketch { Heard(PrevotingNil(Blank(2)), 0, Prevote, None, XH).(step := PrevoteWaitStep) }

  function CNil(): Sketch { Voted(CWait().(step := PrecommitStep), Precommit, None) }

  function A1(): Sketch { Onward(Waiting(ALocked(), 2, XH, None)) }

  function C1(): Sketch { Onward(Waiting(CNil(), 0, None, XH)) }

  /** A node through a round of nil votes. */
  function NilRound(k: Sketch, j: Id): Sketch {
    Waiting(Unlocking(PrevotingNil(k), j), j, None, None)
  }

  ghost predicate Stage(n: Net, a: Sketch, c: Sketch) {
    Reachable(n) && Everyone(n) && a.id == 0 && c.id == 2 && Fits(At(n, 0), a) && Fits(At(n, 2), c)
  }

  ghost predicate Applies(s: NodeState, b: Block) {
    |s.applied| == 1 && s.applied[0].height == 1 && s.applied[0].block == b
  }

  ghost predicate BFits(n: Net, b: Sketch) { Everyone(n) && Fits(At(n, 1), b) }

  /** b, which has left the height, is not disturbed, and no vote is lost. */
  ghost predicate BSame(n: Net, n': Net) {
    Everyone(n) && Everyone(n') && At(n', 1) == At(n, 1) && n.soup <= n'.soup
  }

  ghost predicate HasApplied(n: Net, i: Id, b: Block) { Everyone(n) && Applies(At(n, i), b) }

  // ----- The run -----

  lemma TwoBlocks()
    ensures !IsHashEmpty(XH) && !IsHashEmpty(YH) && X.header != Y.header
    ensures BlockKey(XH) == XH && BlockKey(None) == None
  {
    assert X.header[0] == 1 && Y.header[0] == 2;
  }

  lemma Keys()
    ensures forall r :: 0 <= r < 3 ==> Rotation.ProposerForRound(THREE, r).publicKey == KeyOf(r)
    ensures forall i: Id, j: Id :: i != j ==> KeyOf(i) != KeyOf(j)
  {
    hide KeyOf, Rotation.ProposerForRound;
    Proposers();
    forall i: Id, j: Id | i != j ensures KeyOf(i) != KeyOf(j) { KeysDiffer(i, j); }
  }

  /** A validator that does not propose in round 0 waits for the proposal. */
  lemma StartWaiting(i: Id, env: Env)
    requires i != 0
    ensures Fits(Start(Cfg(i), env, 1, None), Blank(i)) && Start(Cfg(i), env, 1, None).sent == {}
  {
    hide KeyOf, Rotation.ProposerForRound, CreateProposal;
    Keys();
  }

  ghost predicate AllStarted(n: Net, env: Env) {
    && n.nodes == map[KeyOf(0) := Start(Cfg(0), env, 1, None), KeyOf(1) := Start(Cfg(1), env, 1, None),
                      KeyOf(2) := Start(Cfg(2), env, 1, None)]
    && n.soup == Start(Cfg(0), env, 1, None).sent
    && Start(Cfg(1), env, 1, None).sent == {} && Start(Cfg(2), env, 1, None).sent == {}
  }

  lemma StartsOf(n: Net, env: Env)
    requires AllStarted(n, env)
    ensures Everyone(n) && forall i: Id :: At(n, i) == Start(Cfg(i), env, 1, None)
    ensures n.nodes.Keys == EASY.honest
  {
    hide KeyOf, Start, Cfg;
    Keys();
    forall i: Id ensures KeyOf(i) in n.nodes && n.nodes[KeyOf(i)] == Start(Cfg(i), env, 1, None) {}
  }

  lemma InitialNet(n: Net, env: Env)
    requires AllStarted(n, env)
    ensures Reachable(n)
  {
    hide KeyOf, Start, AllStarted;
    StartsOf(n, env);
    forall key | key in n.nodes ensures Started(EASY, key, n.nodes[key]) && n.nodes[key].sent <= n.soup {
      var i: Id :| key == KeyOf(i);
      assert At(n, i) == Start(Cfg(i), env, 1, None);
      StartOfOne(n, env, i);
    }
    forall v | v in n.soup ensures exists key :: key in n.nodes && v in n.nodes[key].sent {
      StartOfOne(n, env, 0);
      assert KeyOf(0) in n.nodes;
    }
    assert IsRun(EASY, [n]) && [n][|[n]| - 1] == n;
  }

  lemma StartOfOne(n: Net, env: Env, i: Id)
    requires AllStarted(n, env)
    ensures Start(Cfg(i), env, 1, None).sent <= n.soup && n.soup == Start(Cfg(0), env, 1, None).sent
  {
    hide Start, KeyOf;
  }

  /** a starts by proposing X; b and c wait for a proposal. */
  lemma Beginning() returns (n: Net)
    ensures Stage(n, Prevoting(Blank(0), X), Blank(2)) && BFits(n, Blank(1))
    ensures Ballot1(0, Prevote, 0, XH) in n.soup
  {
    hide KeyOf, EnterNewRound, Rotation.ProposerForRound, Reachable, Everyone, At, T1;
    Keys();
    var env := Surroundings(Some(X));
    ProposeStepTaken(NewNode(Cfg(0), 1, None), Blank(0).(step := NewHeightStep), 0, X);
    StartWaiting(1, env);
    StartWaiting(2, env);
    n := Net(map[KeyOf(0) := Start(Cfg(0), env, 1, None), KeyOf(1) := Start(Cfg(1), env, 1, None),
                 KeyOf(2) := Start(Cfg(2), env, 1, None)],
             Start(Cfg(0), env, 1, None).sent);
    StartsOf(n, env);
    InitialNet(n, env);
  }

  /** b accepts X; a and b lock it; b applies it. */
  lemma FirstDecision(n: Net) returns (n': Net)
    requires Stage(n, Prevoting(Blank(0), X), Blank(2)) && BFits(n, Blank(1))
    requires Ballot1(0, Prevote, 0, XH) in n.soup
    ensures Stage(n', ALocked(), Blank(2)) && HasApplied(n', 1, X)
    ensures Ballot1(0, Prevote, 0, XH) in n'.soup && Ballot1(0, Precommit, 0, XH) in n'.soup
    ensures Ballot1(1, Precommit, 0, XH) in n'.soup
  {
    hide Fits, Handle, Reachable, Everyone, At, T1, T2, KeyOf, Rotation.ProposerForRound;
    Proposers();
    TwoBlocks();
    var env := Surroundings(None);
    var b1 := Prevoting(Blank(1), X);
    AcceptStep(At(n, 1), Blank(1), 0, X);
    var n1 := Take(n, Blank(1), env, ProposalEvent(Fresh(0, 0, X)), b1, {Ballot1(1, Prevote, 0, XH)});
    LockStep(At(n1, 0), Prevoting(Blank(0), X), 1, X);
    var n2 := Take(n1, Prevoting(Blank(0), X), env, VoteEvent(Ballot1(1, Prevote, 0, XH)), ALocked(),
                   {Ballot1(0, Precommit, 0, XH)});
    LockStep(At(n2, 1), b1, 0, X);
    var n3 := Take(n2, b1, env, VoteEvent(Ballot1(0, Prevote, 0, XH)), Locking(b1, 0, X),
                   {Ballot1(1, Precommit, 0, XH)});
    ApplyStep(At(n3, 1), Locking(b1, 0, X), 0, X);
    n' := Deliver1(n3, 1, env, VoteEvent(Ballot1(0, Precommit, 0, XH)));
  }

  /** c misses the proposal and precommits nil; a and c, seeing no majority, go to round 1. */
  lemma RoundZeroEnds(n: Net) returns (n': Net)
    requires Stage(n, ALocked(), Blank(2))
    requires Ballot1(0, Prevote, 0, XH) in n.soup && Ballot1(0, Precommit, 0, XH) in n.soup
    ensures Stage(n', A1(), C1()) && BSame(n, n')
  {
    hide Fits, Handle, Reachable, Everyone, At, T1, T2, KeyOf, Rotation.ProposerForRound, BlockKey;
    Keys();
    TwoBlocks();
    var n1 := CPrecommitsNil(n);
    var env, a, c := Surroundings(None), Waiting(ALocked(), 2, XH, None), Waiting(CNil(), 0, None, XH);
    PrecommitWaitStepTaken(At(n1, 0), ALocked(), 2, XH, None);
    var n2 := Take(n1, ALocked(), env, VoteEvent(Ballot1(2, Precommit, 0, None)), a, {});
    NextRoundStep(At(n2, 0), a);
    var n3 := Take(n2, a, env, TimeoutEvent(1, 0, PrecommitWaitStep), A1(), {});
    PrecommitWaitStepTaken(At(n3, 2), CNil(), 0, None, XH);
    var n4 := Take(n3, CNil(), env, VoteEvent(Ballot1(0, Precommit, 0, XH)), c, {});
    NextRoundStep(At(n4, 2), c);
    n' := Take(n4, c, env, TimeoutEvent(1, 0, PrecommitWaitStep), C1(), {});
  }

  lemma CPrecommitsNil(n: Net) returns (n': Net)
    requires Stage(n, ALocked(), Blank(2)) && Ballot1(0, Prevote, 0, XH) in n.soup
    ensures Stage(n', ALocked(), CNil()) && BSame(n, n')
    ensures Ballot1(2, Precommit, 0, None) in n'.soup
  {
    hide Fits, Handle, Reachable, Everyone, At, T1, T2, KeyOf, BlockKey;
    TwoBlocks();
    var env, c := Surroundings(None), PrevotingNil(Blank(2));
    PrevoteNilStep(At(n, 2), Blank(2));
    var n1 := Take(n, Blank(2), env, TimeoutEvent(1, 0, ProposeStep), c, {Ballot1(2, Prevote, 0, None)});
    PrevoteWaitStepTaken(At(n1, 2), c, 0, None, XH);
    var n2 := Take(n1, c, env, VoteEvent(Ballot1(0, Prevote, 0, XH)), CWait(), {});
    T2Facts(Ballot1(2, Prevote, 0, None), Ballot1(0, Prevote, 0, XH));
    PrecommitNilStep(At(n2, 2), CWait());
    n' := Take(n2, CWait(), env, TimeoutEvent(1, 0, PrevoteWaitStep), CNil(), {Ballot1(2, Precommit, 0, None)});
  }

  /** In round 1, without a proposal, without votes, and with a signer that has not reached the round. */
  ghost predicate Idle(k: Sketch) {
    && k.round == 1 && k.step == ProposeStep && k.block == None
    && 1 !in k.prevotes && 1 !in k.precommits && MaySign(k, 1)
  }

  /** Nobody proposes in round 1: a and c prevote nil, which is a quorum, and a gives up its lock. */
  lemma RoundOne(n: Net, a: Sketch, c: Sketch) returns (n': Net)
    requires Stage(n, a, c) && Idle(a) && Idle(c)
    ensures Stage(n', NilRound(a, 2), NilRound(c, 0)) && BSame(n, n')
  {
    hide Fits, Handle, Reachable, Everyone, At, T1, T2, KeyOf, BlockKey;
    TwoBlocks();
    var n1 := BothUnlock(n, a, c);
    var env, a1, c1 := Surroundings(None), Unlocking(PrevotingNil(a), 2), Unlocking(PrevotingNil(c), 0);
    PrecommitWaitStepTaken(At(n1, 0), a1, 2, None, None);
    var n2 := Take(n1, a1, env, VoteEvent(Ballot1(2, Precommit, 1, None)), NilRound(a, 2), {});
    PrecommitWaitStepTaken(At(n2, 2), c1, 0, None, None);
    n' := Take(n2, c1, env, VoteEvent(Ballot1(0, Precommit, 1, None)), NilRound(c, 0), {});
  }

  lemma BothUnlock(n: Net, a: Sketch, c: Sketch) returns (n': Net)
    requires Stage(n, a, c) && Idle(a) && Idle(c)
    ensures Stage(n', Unlocking(PrevotingNil(a), 2), Unlocking(PrevotingNil(c), 0)) && BSame(n, n')
    ensures Ballot1(0, Precommit, 1, None) in n'.soup && Ballot1(2, Precommit, 1, None) in n'.soup
  {
    hide Fits, Handle, Reachable, Everyone, At, T1, T2, KeyOf, BlockKey;
    var env, a1, c1 := Surroundings(None), PrevotingNil(a), PrevotingNil(c);
    PrevoteNilStep(At(n, 0), a);
    var n1 := Take(n, a, env, TimeoutEvent(1, 1, ProposeStep), a1, {Ballot1(0, Prevote, 1, None)});
    PrevoteNilStep(At(n1, 2), c);
    var n2 := Take(n1, c, env, TimeoutEvent(1, 1, ProposeStep), c1, {Ballot1(2, Prevote, 1, None)});
    UnlockStep(At(n2, 0), a1, 2);
    var n3 := Take(n2, a1, env, VoteEvent(Ballot1(2, Prevote, 1, None)), Unlocking(a1, 2),
                   {Ballot1(0, Precommit, 1, None)});
    UnlockStep(At(n3, 2), c1, 0);
    n' := Take(n3, c1, env, VoteEvent(Ballot1(0, Prevote, 1, None)), Unlocking(c1, 0),
               {Ballot1(2, Precommit, 1, None)});
  }

  /** Through with round 1, unlocked, nothing known of round 2. */
  ghost predicate RoundTwoNext(k: Sketch) {
    && k.round == 1 && k.step == PrecommitWaitStep && k.locked == None
    && 2 !in k.prevotes && 2 !in k.precommits && k.signed == (1, 1, 2)
  }

  /** c proposes Y in round 2, a and c lock it, and a applies it. */
  lemma SecondDecision(n: Net, a: Sketch, c: Sketch) returns (n': Net)
    requires Stage(n, a, c) && RoundTwoNext(a) && RoundTwoNext(c) && c.valid == None
    ensures Reachable(n') && BSame(n, n') && HasApplied(n', 0, Y)
  {
    hide Fits, Handle, Reachable, Everyone, At, T1, T2, KeyOf, BlockKey;
    TwoBlocks();
    var n1 := YProposed(n, a, c);
    var env, a1, c1 := Surroundings(None), Prevoting(Onward(a), Y), Prevoting(c.(round := 2), Y);
    LockStep(At(n1, 0), a1, 2, Y);
    var n2 := Take(n1, a1, env, VoteEvent(Ballot1(2, Prevote, 2, YH)), Locking(a1, 2, Y),
                   {Ballot1(0, Precommit, 2, YH)});
    LockStep(At(n2, 2), c1, 0, Y);
    var n3 := Take(n2, c1, env, VoteEvent(Ballot1(0, Prevote, 2, YH)), Locking(c1, 0, Y),
                   {Ballot1(2, Precommit, 2, YH)});
    ApplyStep(At(n3, 0), Locking(a1, 2, Y), 2, Y);
    n' := Deliver1(n3, 0, env, VoteEvent(Ballot1(2, Precommit, 2, YH)));
  }

  lemma YProposed(n: Net, a: Sketch, c: Sketch) returns (n': Net)
    requires Stage(n, a, c) && RoundTwoNext(a) && RoundTwoNext(c) && c.valid == None
    ensures Stage(n', Prevoting(Onward(a), Y), Prevoting(c.(round := 2), Y)) && BSame(n, n')
    ensures Ballot1(0, Prevote, 2, YH) in n'.soup && Ballot1(2, Prevote, 2, YH) in n'.soup
  {
    hide Fits, Handle, Reachable, Everyone, At, T1, T2, KeyOf, BlockKey, Rotation.ProposerForRound;
    Proposers();
    Keys();
    var env, c1 := Surroundings(None), Prevoting(c.(round := 2), Y);
    NextRoundStep(At(n, 0), a);
    var n1 := Take(n, a, env, TimeoutEvent(1, 1, PrecommitWaitStep), Onward(a), {});
    CProposes(At(n1, 2), c);
    var n2 := Take(n1, c, Surroundings(Some(Y)), TimeoutEvent(1, 1, PrecommitWaitStep), c1,
                   {Ballot1(2, Prevote, 2, YH)});
    AcceptStep(At(n2, 0), Onward(a), 2, Y);
    n' := Take(n2, Onward(a), env, ProposalEvent(Fresh(2, 2, Y)), Prevoting(Onward(a), Y),
               {Ballot1(0, Prevote, 2, YH)});
  }

  lemma CProposes(s: NodeState, c: Sketch)
    requires Fits(s, c) && c.id == 2 && RoundTwoNext(c) && c.valid == None
    ensures Reaches(s, Handle(Cfg(2), Surroundings(Some(Y)), s, TimeoutEvent(1, 1, PrecommitWaitStep)),
                    Prevoting(c.(round := 2), Y), {Ballot1(2, Prevote, 2, YH)})
  {
    hide T1, T2, KeyOf, BlockKey, EnterNewRound, Rotation.ProposerForRound;
    Keys();
    ProposeStepTaken(s, c, 2, Y);
  }

  lemma Sketched()
    ensures Idle(A1()) && Idle(C1()) && C1().valid == None
    ensures RoundTwoNext(NilRound(A1(), 2)) && RoundTwoNext(NilRound(C1(), 0)) && NilRound(C1(), 0).valid == None
  {
    hide T1, T2;
  }

  lemma NobodyFaulty()
    ensures GoodSchedule(EASY.vals) && Faulty(EASY, 1) == {}
  {
    hide KeyOf;
    ThreeIsValid();
    assert forall i :: 0 <= i < 3 ==> THREE.validators[i].publicKey == KeyOf(i);
  }

  lemma Disagreement() returns (n: Net)
    ensures Reachable(n) && HasApplied(n, 0, Y) && HasApplied(n, 1, X)
  {
    hide Stage, Reachable, KeyOf, A1, C1, ALocked, Applies, NilRound, Prevoting, Blank, BFits;
    var n0 := Beginning();
    var n1 := FirstDecision(n0);
    var n2 := RoundZeroEnds(n1);
    Sketched();
    var n3 := RoundOne(n2, A1(), C1());
    n := SecondDecision(n3, NilRound(A1(), 2), NilRound(C1(), 0));
  }

  /** All three validators are honest, and yet two of them apply different blocks at height 1. */
  lemma AgreementFails() returns (run: seq<Net>)
    ensures GoodSchedule(EASY.vals) && IsRun(EASY, run) && Faulty(EASY, 1) == {}
    ensures HasApplied(run[|run| - 1], 0, Y) && HasApplied(run[|run| - 1], 1, X)
    ensures BlockHash(Cfg(0), Y) != BlockHash(Cfg(1), X)
  {
    hide Initial, Next, HasApplied, GoodSchedule, Faulty;
    var n := Disagreement();
    run :| IsRun(EASY, run) && run[|run| - 1] == n;
    NobodyFaulty();
    TwoBlocks();
  }

  // ----- Commits that stop a node -----

  ghost predicate Stopped(n: Net, i: Id, why: Halt) { Everyone(n) && At(n, i).halt == why }

  lemma CStopsWithoutBlock() returns (n': Net)
    ensures Reachable(n') && Stopped(n', 2, NoBlock) && HasApplied(n', 1, X)
  {
    hide Fits, Handle, Reachable, Everyone, At, T1, T2, KeyOf, Applies;
    TwoBlocks();
    var n0 := Beginning();
    var n1 := FirstDecision(n0);
    var env, v, w := Surroundings(None), Ballot1(0, Precommit, 0, XH), Ballot1(1, Precommit, 0, XH);
    var c := Blank(2).(precommits := map[0 := T1(v)]);
    HearFirst(At(n1, 2), Blank(2), 0, XH);
    assert Blank(2).precommits[0 := T1(v)] == map[0 := T1(v)];
    var n2 := Take(n1, Blank(2), env, VoteEvent(v), c, {});
    NoBlockStep(At(n2, 2), c, 0, 1, XH);
    n' := Deliver1(n2, 2, env, VoteEvent(w));
  }

  /**
   * All three validators are honest, and yet one stops: c has not received the proposal when the two
   * precommits that commit X arrive.
   */
  lemma MissedProposalStops() returns (run: seq<Net>)
    ensures GoodSchedule(EASY.vals) && IsRun(EASY, run) && Faulty(EASY, 1) == {}
    ensures Stopped(run[|run| - 1], 2, NoBlock) && HasApplied(run[|run| - 1], 1, X)
  {
    hide Initial, Next, HasApplied, GoodSchedule, Faulty, Stopped;
    var n := CStopsWithoutBlock();
    run :| IsRun(EASY, run) && run[|run| - 1] == n;
    NobodyFaulty();
  }

  lemma CStopsOnOther() returns (n': Net)
    ensures Reachable(n') && Stopped(n', 2, HashMismatch) && HasApplied(n', 1, X)
  {
    hide Fits, Handle, Reachable, Everyone, At, T1, T2, KeyOf, Applies, A1, ALocked;
    TwoBlocks();
    var n0 := Beginning();
    var n1 := FirstDecision(n0);
    var n2 := RoundZeroEnds(n1);
    Sketched();
    var n3 := RoundOne(n2, A1(), C1());
    var a, c := NilRound(A1(), 2), NilRound(C1(), 0);
    var n4 := YProposed(n3, a, c);
    var c1 := Prevoting(c.(round := 2), Y);
    CVotes();
    MismatchStep(At(n4, 2), c1, 0, 1, X, Y);
    n' := Deliver1(n4, 2, Surroundings(None), VoteEvent(Ballot1(1, Precommit, 0, XH)));
  }

  /** The precommits c has recorded by round 2. */
  lemma CVotes()
    ensures var k := Prevoting(NilRound(C1(), 0).(round := 2), Y);
      && 0 in k.precommits && 1 in k.precommits && 2 !in k.precommits && k.precommits[1].maj23 == Some(None)
      && k.precommits[0] == T2(Ballot1(2, Precommit, 0, None), Ballot1(0, Precommit, 0, XH))
      && k.locked == None && k.block == Some(Y) && k.step == PrevoteStep
  {
    hide T1, T2, KeyOf;
    T2Facts(Ballot1(2, Precommit, 1, None), Ballot1(0, Precommit, 1, None));
  }

  /** An honest node also stops when X is committed late, after it has received the proposal of Y. */
  lemma OtherProposalStops() returns (run: seq<Net>)
    ensures GoodSchedule(EASY.vals) && IsRun(EASY, run) && Faulty(EASY, 1) == {}
    ensures Stopped(run[|run| - 1], 2, HashMismatch) && HasApplied(run[|run| - 1], 1, X)
  {
    hide Initial, Next, HasApplied, GoodSchedule, Faulty, Stopped;
    var n := CStopsOnOther();
    run :| IsRun(EASY, run) && run[|run| - 1] == n;
    NobodyFaulty();
  }
}
