/**
 * The consensus state machine of one node as functions: one function per state transition, with the
 * whole cascade an event can start, from a new round down to the commit of a block.
 *
 * A panic ends the node: it sets `halt` and nothing happens afterwards.
 */
module Node {
  import opened Types
  import opened Validators
  import opened VoteSets
  import opened Commits
  import Privval
  import Rotation

  datatype Block = Block(header: Bytes, body: Bytes)

  datatype Proposal = Proposal(
    height: int,
    round: int,
    timestamp: int,
    block: Block,
    polRound: int,
    polVotes: seq<Vote>,
    proposer: string,
    signature: Bytes)

  /** Sign bytes of a vote or a proposal: everything but the signature. */
  datatype Message = VoteMessage(vote: Vote) | ProposalMessage(proposal: Proposal)

  /** What a node is given: its key, the primitives, and the validator set of every height. */
  datatype Config = Config(
    me: Option<Bytes>,
    verifyVote: Ed25519,
    verifyProposal: (Bytes, Proposal, Bytes) -> bool,
    hashHeader: Bytes -> Bytes,
    sign: Message -> Bytes,
    vals: int -> ValidatorSet)

  /** Answers of the surroundings while one event is handled. */
  datatype Env = Env(now: int, newBlock: Option<Block>, blockValid: bool, applyOk: bool)

  datatype RoundStep =
    | NewHeightStep | NewRoundStep | ProposeStep | PrevoteStep | PrevoteWaitStep
    | PrecommitStep | PrecommitWaitStep | CommitStep
  {
    function Rank(): (r: nat)
      ensures r < 8
    {
      match this
      case NewHeightStep => 0
      case NewRoundStep => 1
      case ProposeStep => 2
      case PrevoteStep => 3
      case PrevoteWaitStep => 4
      case PrecommitStep => 5
      case PrecommitWaitStep => 6
      case CommitStep => 7
    }
  }

  datatype Halt = Running | OwnVoteRejected | NoCommitFound | NoBlock | HashMismatch | ApplyFailed

  /** A block handed to the executor together with its certificate. */
  datatype Applied = Applied(height: int, block: Block, commit: Commit)

  datatype NodeState = NodeState(
    start: int,
    height: int,
    round: int,
    step: RoundStep,
    vals: ValidatorSet,
    proposal: Option<Proposal>,
    proposalBlock: Option<Block>,
    lockedRound: int,
    lockedBlock: Option<Block>,
    validRound: int,
    validBlock: Option<Block>,
    votes: HeightVotes,
    lastCommit: Option<Commit>,
    signer: Privval.LastSignState<Message>,
    halt: Halt,
    sent: set<Vote>,          // every vote the signer released
    applied: seq<Applied>)    // every block handed to the executor
  {
    function Left(): nat { 8 - step.Rank() }
  }

  datatype Event =
    | ProposalEvent(proposal: Proposal)
    | VoteEvent(vote: Vote)
    | TimeoutEvent(height: int, round: int, step: RoundStep)

  function BlockHash(cfg: Config, b: Block): Bytes { cfg.hashHeader(b.header) }

  /** The first validator holding a key. */
  function FindKey(vals: seq<Validator>, key: Bytes): (r: Option<int>)
    ensures r.Some? ==> 0 <= r.value < |vals| && vals[r.value].publicKey == key
    ensures r.Some? ==> forall i :: 0 <= i < r.value ==> vals[i].publicKey != key
    ensures r.None? ==> forall i :: 0 <= i < |vals| ==> vals[i].publicKey != key
  {
    if vals == [] then None
    else
      var rest := FindKey(vals[..|vals| - 1], key);
      if rest.Some? then rest
      else if vals[|vals| - 1].publicKey == key then Some(|vals| - 1) else None
  }

  /** The recorded votes in order of validator index. */
  function SortedVotes(t: Tally, n: nat): seq<Vote> {
    if n == 0 then [] else
      SortedVotes(t, n - 1) + if n - 1 in t.votes then [t.votes[n - 1]] else []
  }

  // ----- Proof of lock -----

  predicate POLVoteAccepted(cfg: Config, vals: ValidatorSet, p: Proposal, v: Vote) {
    && v.vtype == Prevote && v.height == p.height && v.round == p.polRound
    && v.blockHash == Some(BlockHash(cfg, p.block))
    && Authentic(cfg.verifyVote, vals, v)
  }

  function POLVoters(p: Proposal): set<int> {
    set i | 0 <= i < |p.polVotes| :: p.polVotes[i].index
  }

  /** The proof of lock a proposal carries is a quorum of distinct valid prevotes for its block. */
  predicate POLAccepted(cfg: Config, vals: ValidatorSet, p: Proposal) {
    && p.polVotes != []
    && (forall i :: 0 <= i < |p.polVotes| ==> POLVoteAccepted(cfg, vals, p, p.polVotes[i]))
    && (forall i, j :: 0 <= i < j < |p.polVotes| ==> p.polVotes[i].index != p.polVotes[j].index)
    && PowerOf(vals.validators, POLVoters(p)) >= vals.TwoThirdsMajority()
  }

  predicate CanUnlock(cfg: Config, s: NodeState, p: Option<Proposal>) {
    && p.Some? && p.value.polRound >= 0
    && s.lockedRound < p.value.polRound < p.value.round
    && POLAccepted(cfg, s.vals, p.value)
  }

  // ----- Transitions -----

  /** A node at the start of a round. */
  function RoundStart(s: NodeState, round: int): NodeState {
    s.(round := round, step := ProposeStep, proposal := None, proposalBlock := None,
       validRound := if round == 0 then -1 else s.validRound,
       validBlock := if round == 0 then None else s.validBlock)
  }

  function EnterNewRound(cfg: Config, env: Env, s: NodeState, height: int, round: int): NodeState
    decreases 2, 0, 0
  {
    if s.height != height || round < s.round then s else
      var s1 := RoundStart(s, round);
      var proposer := Rotation.ProposerForRound(s1.vals, s1.round);
      if cfg.me == Some(proposer.publicKey) then CreateProposal(cfg, env, s1) else s1
  }

  /** The block to propose: the valid block, the locked block, or a new one. */
  function BlockToPropose(env: Env, s: NodeState): Option<Block> {
    if s.validBlock.Some? then s.validBlock
    else if s.lockedBlock.Some? then s.lockedBlock
    else env.newBlock
  }

  function OwnProposal(env: Env, s: NodeState, block: Block): Proposal {
    var prevotes := s.votes.Prevotes(s.validRound);
    Proposal(s.height, s.round, env.now, block, s.validRound,
             if s.validRound >= 0 && prevotes.Some? then SortedVotes(prevotes.value, |s.vals.validators|) else [],
             Rotation.ProposerForRound(s.vals, s.round).name, [])
  }

  /** Identity stands for a hash of sign bytes without collisions. */
  function SameMessage(m: Message): Message { m }

  function ProposalRequest(cfg: Config, p: Proposal): Privval.Request<Message> {
    Privval.Request(p.height, p.round, Privval.STEP_PROPOSAL, ProposalMessage(p),
                    Some(BlockHash(cfg, p.block)), p.timestamp)
  }

  function VoteRequest(v: Vote): Privval.Request<Message> {
    Privval.Request(v.height, v.round,
                    if v.vtype == Prevote then Privval.STEP_PREVOTE else Privval.STEP_PRECOMMIT,
                    VoteMessage(v), v.blockHash, v.timestamp)
  }

  /** Signature and new last-sign state, or none when the signer refuses. */
  function Sign(cfg: Config, last: Privval.LastSignState<Message>, req: Privval.Request<Message>)
    : Option<(Bytes, Privval.LastSignState<Message>)>
  {
    match Privval.Decide(SameMessage, last, req)
    case Refuse(_) => None
    case ReturnCached => Some((last.signature, last))
    case SignNow =>
      var sig := cfg.sign(req.signBytes);
      Some((sig, Privval.SignedState(SameMessage, req, sig)))
  }

  function CreateProposal(cfg: Config, env: Env, s: NodeState): NodeState
    decreases 1, 9, 0
  {
    var block := BlockToPropose(env, s);
    if block.None? then s else
      var p := OwnProposal(env, s, block.value);
      var signed := Sign(cfg, s.signer, ProposalRequest(cfg, p));
      if signed.None? then s else
        var s1 := s.(signer := signed.value.1,
                     proposal := Some(p.(signature := signed.value.0)),
                     proposalBlock := Some(block.value));
        EnterPrevote(cfg, env, s1, s1.height, s1.round)
  }

  /** What to prevote for, and whether the lock is given up for a later proof of lock. */
  function DecidePrevote(cfg: Config, s: NodeState): (Option<Bytes>, bool) {
    if s.lockedBlock.Some? then
      if s.proposalBlock.None? then (None, false)
      else
        var locked, proposed := BlockHash(cfg, s.lockedBlock.value), BlockHash(cfg, s.proposalBlock.value);
        if proposed == locked then (Some(locked), false)
        else if CanUnlock(cfg, s, s.proposal) then (Some(proposed), true)
        else (None, false)
    else if s.proposalBlock.Some? then (Some(BlockHash(cfg, s.proposalBlock.value)), false)
    else (None, false)
  }

  function Unlocked(s: NodeState): NodeState {
    s.(lockedRound := -1, lockedBlock := None)
  }

  function EnterPrevote(cfg: Config, env: Env, s: NodeState, height: int, round: int): NodeState
    decreases 1, s.Left(), 3
  {
    if s.height != height || s.round != round || s.step.Rank() >= PrevoteStep.Rank() then s else
      var (hash, unlock) := DecidePrevote(cfg, s);
      var s1 := (if unlock then Unlocked(s) else s).(step := PrevoteStep);
      SignAndSendVote(cfg, env, s1, Prevote, hash)
  }

  function EnterPrevoteWait(s: NodeState, height: int, round: int): NodeState {
    if s.height != height || s.round != round || s.step.Rank() >= PrevoteWaitStep.Rank() then s
    else s.(step := PrevoteWaitStep)
  }

  /** What to precommit for, and the lock that goes with it. */
  function DecidePrecommit(cfg: Config, s: NodeState): (Option<Bytes>, NodeState) {
    var prevotes := s.votes.Prevotes(s.round);
    if prevotes.None? || prevotes.value.maj23.None? then (None, s)
    else if prevotes.value.maj23.value.None? then (None, Unlocked(s))
    else if s.proposalBlock.Some? && BlockHash(cfg, s.proposalBlock.value) == prevotes.value.maj23.value.value then
      (prevotes.value.maj23.value,
       s.(lockedRound := s.round, lockedBlock := s.proposalBlock, validRound := s.round, validBlock := s.proposalBlock))
    else (None, s)
  }

  function EnterPrecommit(cfg: Config, env: Env, s: NodeState, height: int, round: int): NodeState
    decreases 1, s.Left(), 0
  {
    if s.height != height || s.round != round || s.step.Rank() >= PrecommitStep.Rank() then s else
      var (hash, s1) := DecidePrecommit(cfg, s.(step := PrecommitStep));
      SignAndSendVote(cfg, env, s1, Precommit, hash)
  }

  function EnterPrecommitWait(s: NodeState, height: int, round: int): NodeState {
    if s.height != height || s.round != round || s.step.Rank() >= PrecommitWaitStep.Rank() then s
    else s.(step := PrecommitWaitStep)
  }

  /** The latest round up to `round` whose precommits have a majority for a block. */
  function CommitRound(precommits: map<int, Tally>, round: int): Option<int> {
    if round < 0 then None
    else if round in precommits && precommits[round].maj23.Some? && precommits[round].maj23.value.Some?
            && MakeCommit(precommits[round]).Some? then Some(round)
    else CommitRound(precommits, round - 1)
  }

  function EnterCommit(cfg: Config, env: Env, s: NodeState, height: int): NodeState {
    if s.height != height || s.step.Rank() >= CommitStep.Rank() then s else
      var s1 := s.(step := CommitStep);
      var round := CommitRound(s1.votes.precommits, s1.round);
      if round.None? || round.value !in s1.votes.precommits || MakeCommit(s1.votes.precommits[round.value]).None?
      then s1.(halt := NoCommitFound)
      else FinalizeCommit(cfg, env, s1, height, MakeCommit(s1.votes.precommits[round.value]).value)
  }

  /** The state at the height after a committed block. */
  function NextHeight(cfg: Config, s: NodeState, height: int, commit: Commit): NodeState {
    var vals := cfg.vals(height + 1);
    s.(height := height + 1, round := 0, step := NewHeightStep, proposal := None, proposalBlock := None,
       lockedRound := -1, lockedBlock := None, validRound := -1, validBlock := None,
       lastCommit := Some(commit), vals := vals, votes := NoVotes(height + 1, vals))
  }

  function FinalizeCommit(cfg: Config, env: Env, s: NodeState, height: int, commit: Commit): NodeState {
    var block := if s.lockedBlock.Some? then s.lockedBlock else s.proposalBlock;
    if block.None? then s.(halt := NoBlock)
    else if BlockHash(cfg, block.value) != commit.blockHash then s.(halt := HashMismatch)
    else
      var s1 := s.(applied := s.applied + [Applied(height, block.value, commit)]);
      if !env.applyOk then s1.(halt := ApplyFailed)
      else
        NextHeight(cfg, s1, height, commit)
  }

  /** The position of the node's own validator. */
  function OwnIndex(cfg: Config, s: NodeState): (r: Option<int>)
    ensures r.Some? ==> 0 <= r.value < |s.vals.validators|
  {
    if cfg.me.Some? then FindKey(s.vals.validators, cfg.me.value) else None
  }

  function Ballot(env: Env, s: NodeState, vtype: VoteType, hash: Option<Bytes>, index: int): Vote
    requires 0 <= index < |s.vals.validators|
  {
    Vote(vtype, s.height, s.round, hash, env.now, s.vals.validators[index].name, index, [])
  }

  /** Sign an own vote and record it; none when the node has no vote or the signer refuses. */
  function Cast(cfg: Config, env: Env, s: NodeState, vtype: VoteType, hash: Option<Bytes>)
    : (r: Option<(NodeState, Vote)>)
    ensures r.Some? ==> r.value.1.round == s.round == r.value.0.round && r.value.0.step == s.step
  {
    var index := OwnIndex(cfg, s);
    if index.None? then None else
      var ballot := Ballot(env, s, vtype, hash, index.value);
      var signed := Sign(cfg, s.signer, VoteRequest(ballot));
      if signed.None? then None else
        var v := ballot.(signature := signed.value.0);
        var (votes, added) := AddToHeight(cfg.verifyVote, env.now, s.votes, v);
        Some((s.(signer := signed.value.1, sent := s.sent + {v}, votes := votes,
                 halt := if added == Added then s.halt else OwnVoteRejected), v))
  }

  function SignAndSendVote(cfg: Config, env: Env, s: NodeState, vtype: VoteType, hash: Option<Bytes>): NodeState
    decreases 1, s.Left(), 2
  {
    var cast := Cast(cfg, env, s, vtype, hash);
    if cast.None? then s else
      var (s1, v) := cast.value;
      if s1.halt != Running then s1
      else if vtype == Prevote then HandlePrevote(cfg, env, s1, v)
      else HandlePrecommit(cfg, env, s1, v)
  }

  /** The vote set looked up before a transition, as it stands after it. */
  function Refreshed(before: Tally, s: NodeState, height: int, t: Option<Tally>): Tally {
    if s.height == height && t.Some? then t.value else before
  }

  function HandlePrevote(cfg: Config, env: Env, s: NodeState, v: Vote): NodeState
    decreases if v.round > s.round then 3 else 1, s.Left(), 1
  {
    var prevotes := s.votes.Prevotes(v.round);
    if prevotes.None? then s
    else if v.round > s.round && prevotes.value.HasTwoThirdsAny() then
      var s1 := EnterNewRound(cfg, env, s, s.height, v.round);
      if s1.halt != Running then s1
      else if Refreshed(prevotes.value, s1, s.height, s1.votes.Prevotes(v.round)).HasTwoThirdsMajority() then
        EnterPrecommit(cfg, env, s1, s1.height, v.round)
      else
        EnterPrevote(cfg, env, s1, s1.height, v.round)
    else if v.round == s.round then
      if prevotes.value.HasTwoThirdsMajority() then
        if s.step == PrevoteStep || s.step == PrevoteWaitStep then EnterPrecommit(cfg, env, s, s.height, s.round) else s
      else if prevotes.value.HasTwoThirdsAny() && s.step == PrevoteStep then
        EnterPrevoteWait(s, s.height, s.round)
      else s
    else s
  }

  function HandlePrecommit(cfg: Config, env: Env, s: NodeState, v: Vote): NodeState
    decreases if v.round > s.round then 3 else 1, s.Left(), 1
  {
    var precommits := s.votes.Precommits(v.round);
    if precommits.None? then s
    else if precommits.value.maj23.Some? && precommits.value.maj23.value.Some? then
      var s1 := if v.round > s.round then s.(round := v.round) else s;
      EnterCommit(cfg, env, s1, s1.height)
    else if v.round > s.round && precommits.value.HasTwoThirdsAny() then
      var s1 := EnterNewRound(cfg, env, s, s.height, v.round);
      if s1.halt != Running then s1 else
        var s2 := EnterPrevote(cfg, env, s1, s1.height, v.round);
        if s2.halt != Running then s2 else
          EnterPrecommit(cfg, env, s2, s2.height, v.round)
    else if v.round == s.round && precommits.value.HasTwoThirdsAny() && s.step == PrecommitStep then
      EnterPrecommitWait(s, s.height, s.round)
    else s
  }

  // ----- Events -----

  function HandleProposal(cfg: Config, env: Env, s: NodeState, p: Proposal): NodeState {
    var proposer := Rotation.ProposerForRound(s.vals, p.round);
    if p.height != s.height || p.round != s.round then s
    else if s.proposal.Some? then s
    else if p.proposer != proposer.name then s
    else if !(|proposer.publicKey| == PUBLIC_KEY_SIZE && |p.signature| == SIGNATURE_SIZE
              && cfg.verifyProposal(proposer.publicKey, p.(signature := []), p.signature)) then s
    else if p.polRound >= 0 && !POLAccepted(cfg, s.vals, p) then s
    else if !env.blockValid then s
    else
      var s1 := s.(proposal := Some(p), proposalBlock := Some(p.block));
      EnterPrevote(cfg, env, s1, s1.height, s1.round)
  }

  function HandleVote(cfg: Config, env: Env, s: NodeState, v: Vote): NodeState {
    var (votes, added) := AddToHeight(cfg.verifyVote, env.now, s.votes, v);
    var s1 := s.(votes := votes);
    if added != Added then s1
    else if v.vtype == Prevote then HandlePrevote(cfg, env, s1, v)
    else if v.vtype == Precommit then HandlePrecommit(cfg, env, s1, v)
    else s1
  }

  function HandleTimeout(cfg: Config, env: Env, s: NodeState, height: int, round: int, step: RoundStep): NodeState {
    if height != s.height || round < s.round then s
    else if step == ProposeStep && s.step == ProposeStep then EnterPrevote(cfg, env, s, s.height, s.round)
    else if step == PrevoteWaitStep && s.step == PrevoteWaitStep then EnterPrecommit(cfg, env, s, s.height, s.round)
    else if step == PrecommitWaitStep && s.step == PrecommitWaitStep then
      EnterNewRound(cfg, env, s, s.height, if s.round >= MAX_INT32 then MAX_INT32 else s.round + 1)
    else if step == CommitStep then EnterNewRound(cfg, env, s, s.height, 0)
    else s
  }

  function Handle(cfg: Config, env: Env, s: NodeState, e: Event): NodeState {
    if s.halt != Running then s else
      match e
      case ProposalEvent(p) => HandleProposal(cfg, env, s, p)
      case VoteEvent(v) => HandleVote(cfg, env, s, v)
      case TimeoutEvent(height, round, step) => HandleTimeout(cfg, env, s, height, round, step)
  }

  /** A node before it enters its first round. */
  function NewNode(cfg: Config, height: int, lastCommit: Option<Commit>): NodeState {
    NodeState(height, height, 0, NewHeightStep, cfg.vals(height), None, None, -1, None, -1, None,
              NoVotes(height, cfg.vals(height)), lastCommit, Privval.FreshState(), Running, {}, [])
  }

  function Start(cfg: Config, env: Env, height: int, lastCommit: Option<Commit>): NodeState {
    EnterNewRound(cfg, env, NewNode(cfg, height, lastCommit), height, 0)
  }
}
