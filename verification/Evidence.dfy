/**
 * The evidence pool as a state machine: detecting conflicting votes, keeping evidence until it is
 * committed or expires, and pruning. Which votes of the cut-off height are pruned depends on map order,
 * so one step is a relation. The results are about every run.
 */
module Evidence {
  import opened Types
  import opened Validators
  import opened VoteSets

  const MAX_SEEN_VOTES := 100000
  const VOTE_PROTECTION_WINDOW := 1000
  const MAX_PENDING_EVIDENCE := 10000

  /** The parts of a vote that its key is made of. */
  datatype VoteKey = VoteKey(validator: string, height: int, round: int, vtype: VoteType)

  function KeyOf(v: Vote): VoteKey { VoteKey(v.validator, v.height, v.round, v.vtype) }

  datatype DuplicateVote = DuplicateVote(voteA: Vote, voteB: Vote, totalPower: int, validatorPower: int, timestamp: int)

  datatype EvidenceItem = EvidenceItem(etype: int, height: int, time: int, data: Bytes)

  datatype EvidenceKey = EvidenceKey(etype: int, height: int, time: int, digest: Bytes)

  /** What a pool is configured with; `digest` is the shortened hash of evidence data. */
  datatype Setup = Setup(maxAge: int, maxAgeBlocks: int, vals: ValidatorSet, verify: Ed25519, digest: Bytes -> Bytes)

  function EvidenceKeyOf(c: Setup, e: EvidenceItem): EvidenceKey {
    EvidenceKey(e.etype, e.height, e.time, c.digest(e.data))
  }

  datatype PoolState = PoolState(
    pending: seq<EvidenceItem>,
    committed: set<EvidenceKey>,
    seenVotes: map<VoteKey, Vote>,
    height: int,
    time: int)

  function NewPool(): PoolState { PoolState([], {}, map[], 0, 0) }

  datatype PoolError =
    | UnknownVoter | BadVoteSignature | BadEvidence(error: EvidenceError) | VotePoolFull
    | NoData | PendingFull | DuplicateEvidence | Expired

  datatype EvidenceError =
    | DifferentHeights | DifferentRounds | DifferentTypes | DifferentValidators | SameBlock | NotAValidator
    | BadSignatureA | BadSignatureB

  datatype CheckResult = Nothing | Equivocation(evidence: DuplicateVote) | CheckFailed(error: PoolError)

  // ----- Votes -----

  predicate ForSameBlock(a: Vote, b: Vote) { a.blockHash == b.blockHash }

  /** The validator with a name. */
  function ByName(vals: seq<Validator>, name: string): (r: Option<Validator>)
    ensures r.Some? ==> r.value.name == name && r.value in vals
    ensures r.None? ==> forall i :: 0 <= i < |vals| ==> vals[i].name != name
  {
    if vals == [] then None
    else if vals[|vals| - 1].name == name then Some(vals[|vals| - 1])
    else ByName(vals[..|vals| - 1], name)
  }

  /** The vote carries a signature of the validator it names. */
  predicate Signed(c: Setup, v: Vote) {
    var val := ByName(c.vals.validators, v.validator);
    val.Some? && VerifySignature(c.verify, val.value.publicKey, v)
  }

  function VerifyDuplicateVote(c: Setup, e: DuplicateVote): Option<EvidenceError> {
    var a, b := e.voteA, e.voteB;
    if a.height != b.height then Some(DifferentHeights)
    else if a.round != b.round then Some(DifferentRounds)
    else if a.vtype != b.vtype then Some(DifferentTypes)
    else if a.validator != b.validator then Some(DifferentValidators)
    else if ForSameBlock(a, b) then Some(SameBlock)
    else
      var val := ByName(c.vals.validators, a.validator);
      if val.None? then Some(NotAValidator)
      else if !VerifySignature(c.verify, val.value.publicKey, a) then Some(BadSignatureA)
      else if !VerifySignature(c.verify, val.value.publicKey, b) then Some(BadSignatureB)
      else None
  }

  /** Evidence verifies exactly when one validator signed two votes for different blocks at one place. */
  lemma VerifiesIff(c: Setup, e: DuplicateVote)
    ensures VerifyDuplicateVote(c, e) == None <==>
      KeyOf(e.voteA) == KeyOf(e.voteB) && !ForSameBlock(e.voteA, e.voteB) && Signed(c, e.voteA) && Signed(c, e.voteB)
  {}

  // ----- Steps -----

  function ProtectedHeight(height: int): int {
    if height - VOTE_PROTECTION_WINDOW < 0 then 0 else height - VOTE_PROTECTION_WINDOW
  }

  predicate TooOld(c: Setup, current: int, height: int) { current - height > c.maxAgeBlocks }

  predicate IsExpired(c: Setup, s: PoolState, e: EvidenceItem) {
    TooOld(c, s.height, e.height) || s.time - e.time > c.maxAge
  }

  /** `after` is `before` without up to `n` votes: the oldest ones below the protected height. */
  ghost predicate Pruned(before: map<VoteKey, Vote>, after: map<VoteKey, Vote>, protect: int, n: nat) {
    && (forall k :: k in after ==> k in before && after[k] == before[k])
    && (forall k :: k in before && k !in after ==> before[k].height < protect)
    && (forall r, k :: r in before && r !in after && k in after && after[k].height < protect ==>
        before[r].height <= after[k].height)
    && |after| <= |before| <= |after| + n
    && (|before| < |after| + n ==> forall k :: k in after ==> after[k].height >= protect)
  }

  /** The pool with room for one more vote, if pruning can make it. */
  ghost predicate MadeRoom(s: PoolState, seen: map<VoteKey, Vote>) {
    if |s.seenVotes| >= MAX_SEEN_VOTES
    then Pruned(s.seenVotes, seen, ProtectedHeight(s.height), MAX_SEEN_VOTES / 10)
    else seen == s.seenVotes
  }

  /** A vote at a place no vote was seen at: it is tracked if there is room. */
  ghost predicate TrackStep(s: PoolState, s': PoolState, v: Vote, seen: map<VoteKey, Vote>, r: CheckResult) {
    && MadeRoom(s, seen)
    && if |seen| >= MAX_SEEN_VOTES then s' == s.(seenVotes := seen) && r == CheckFailed(VotePoolFull)
       else s' == s.(seenVotes := seen[KeyOf(v) := v]) && r == Nothing
  }

  /** The evidence made of the vote seen first and a conflicting one. */
  function Conflict(c: Setup, first: Vote, v: Vote, power: int, now: int): CheckResult {
    var e := DuplicateVote(first, v, c.vals.totalPower, power, now);
    var error := VerifyDuplicateVote(c, e);
    if error == None then Equivocation(e) else CheckFailed(BadEvidence(error.value))
  }

  ghost predicate CheckVoteStep(c: Setup, s: PoolState, s': PoolState, v: Vote, now: int, r: CheckResult) {
    var val := ByName(c.vals.validators, v.validator);
    if val.None? then s' == s && r == CheckFailed(UnknownVoter)
    else if !VerifySignature(c.verify, val.value.publicKey, v) then s' == s && r == CheckFailed(BadVoteSignature)
    else if KeyOf(v) in s.seenVotes then
      var first := s.seenVotes[KeyOf(v)];
      s' == s && r == if ForSameBlock(first, v) then Nothing else Conflict(c, first, v, val.value.votingPower, now)
    else exists seen :: TrackStep(s, s', v, seen, r)
  }

  function IsPending(c: Setup, pending: seq<EvidenceItem>, key: EvidenceKey): bool {
    exists i :: 0 <= i < |pending| && EvidenceKeyOf(c, pending[i]) == key
  }

  function AddEvidence(c: Setup, s: PoolState, e: EvidenceItem): (PoolState, Option<PoolError>) {
    var key := EvidenceKeyOf(c, e);
    if e.data == [] then (s, Some(NoData))
    else if |s.pending| >= MAX_PENDING_EVIDENCE then (s, Some(PendingFull))
    else if key in s.committed then (s, Some(DuplicateEvidence))
    else if IsPending(c, s.pending, key) then (s, Some(DuplicateEvidence))
    else if IsExpired(c, s, e) then (s, Some(Expired))
    else (s.(pending := s.pending + [e]), None)
  }

  function KeysOf(c: Setup, items: seq<EvidenceItem>): set<EvidenceKey> {
    set i | 0 <= i < |items| :: EvidenceKeyOf(c, items[i])
  }

  /** The items whose keys are not in a set, in order. */
  function Except(c: Setup, items: seq<EvidenceItem>, keys: set<EvidenceKey>): seq<EvidenceItem> {
    if items == [] then [] else
      Except(c, items[..|items| - 1], keys) +
      if EvidenceKeyOf(c, items[|items| - 1]) in keys then [] else [items[|items| - 1]]
  }

  function MarkCommitted(c: Setup, s: PoolState, items: seq<EvidenceItem>): PoolState {
    s.(committed := s.committed + KeysOf(c, items), pending := Except(c, s.pending, KeysOf(c, items)))
  }

  /** The items that have not expired, in order. */
  function Unexpired(c: Setup, s: PoolState, items: seq<EvidenceItem>): seq<EvidenceItem> {
    if items == [] then [] else
      Unexpired(c, s, items[..|items| - 1]) +
      if IsExpired(c, s, items[|items| - 1]) then [] else [items[|items| - 1]]
  }

  function Update(c: Setup, s: PoolState, height: int, time: int): PoolState {
    var s1 := s.(height := height, time := time);
    PoolState(Unexpired(c, s1, s.pending),
              set k | k in s.committed && !(k.height < height && TooOld(c, height, k.height)),
              map k | k in s.seenVotes
                && !(s.seenVotes[k].height < height && TooOld(c, height, s.seenVotes[k].height)) :: s.seenVotes[k],
              height, time)
  }

  // ----- Runs -----

  datatype Op =
    | CheckVoteOp(vote: Vote, now: int, result: CheckResult)
    | AddEvidenceOp(item: EvidenceItem, error: Option<PoolError>)
    | MarkCommittedOp(items: seq<EvidenceItem>)
    | UpdateOp(height: int, time: int)

  ghost predicate Step(c: Setup, s: PoolState, op: Op, s': PoolState) {
    match op
    case CheckVoteOp(v, now, r) => CheckVoteStep(c, s, s', v, now, r)
    case AddEvidenceOp(e, error) => (s', error) == AddEvidence(c, s, e)
    case MarkCommittedOp(items) => s' == MarkCommitted(c, s, items)
    case UpdateOp(height, time) => height >= s.height && s' == Update(c, s, height, time)
  }

  /** A run from the new pool in which heights never go back. */
  ghost predicate IsRun(c: Setup, states: seq<PoolState>, ops: seq<Op>) {
    && |states| == |ops| + 1 && states[0] == NewPool()
    && forall i :: 0 <= i < |ops| ==> Step(c, states[i], ops[i], states[i + 1])
  }

  /** Every key committed by the first operations, pruned or not. */
  function EverCommitted(c: Setup, ops: seq<Op>): set<EvidenceKey> {
    if ops == [] then {} else
      EverCommitted(c, ops[..|ops| - 1]) +
      var last := ops[|ops| - 1];
      if last.MarkCommittedOp? then KeysOf(c, last.items) else {}
  }

  ghost predicate UniqueKeys(c: Setup, items: seq<EvidenceItem>) {
    forall i, j :: 0 <= i < j < |items| ==> EvidenceKeyOf(c, items[i]) != EvidenceKeyOf(c, items[j])
  }

  ghost predicate NoneOf(c: Setup, items: seq<EvidenceItem>, keys: set<EvidenceKey>) {
    forall i :: 0 <= i < |items| ==> EvidenceKeyOf(c, items[i]) !in keys
  }

  /** Tracked votes are within the limit, stored under their keys, and signed. */
  ghost predicate VotesInv(c: Setup, s: PoolState) {
    && |s.seenVotes| <= MAX_SEEN_VOTES
    && forall k :: k in s.seenVotes ==> KeyOf(s.seenVotes[k]) == k && Signed(c, s.seenVotes[k])
  }

  /** A key once committed is still known as such, or too old to be added again. */
  ghost predicate Remembered(c: Setup, s: PoolState, ever: set<EvidenceKey>) {
    forall k :: k in ever ==> k in s.committed || TooOld(c, s.height, k.height)
  }

  ghost predicate PoolInv(c: Setup, s: PoolState, ever: set<EvidenceKey>) {
    && VotesInv(c, s) && |s.pending| <= MAX_PENDING_EVIDENCE
    && UniqueKeys(c, s.pending) && NoneOf(c, s.pending, ever) && Remembered(c, s, ever)
  }

  lemma RoomIsSubset(s: PoolState, seen: map<VoteKey, Vote>)
    requires MadeRoom(s, seen)
    ensures |seen| <= |s.seenVotes| && forall k :: k in seen ==> k in s.seenVotes && seen[k] == s.seenVotes[k]
  {}

  lemma OneMore(seen: map<VoteKey, Vote>, v: Vote)
    requires KeyOf(v) !in seen
    ensures |seen[KeyOf(v) := v]| == |seen| + 1
  {
    assert seen[KeyOf(v) := v].Keys == seen.Keys + {KeyOf(v)};
  }

  lemma TrackKeepsVotes(c: Setup, s: PoolState, s': PoolState, v: Vote, seen: map<VoteKey, Vote>, r: CheckResult)
    requires VotesInv(c, s) && Signed(c, v) && TrackStep(s, s', v, seen, r) && KeyOf(v) !in s.seenVotes
    ensures VotesInv(c, s')
  {
    hide Signed, MadeRoom;
    RoomIsSubset(s, seen);
    OneMore(seen, v);
  }

  lemma AppendUnique(c: Setup, r: seq<EvidenceItem>, items: seq<EvidenceItem>)
    requires items != [] && UniqueKeys(c, items) && UniqueKeys(c, r)
    requires forall e :: e in r ==> e in items[..|items| - 1]
    ensures UniqueKeys(c, r + [items[|items| - 1]])
  {
    hide EvidenceKeyOf;
    var n := |items| - 1;
    forall i | 0 <= i < |r| ensures EvidenceKeyOf(c, r[i]) != EvidenceKeyOf(c, items[n]) {
      assert r[i] in r;
      var j :| 0 <= j < n && items[j] == r[i];
      assert EvidenceKeyOf(c, items[j]) != EvidenceKeyOf(c, items[n]);
    }
  }

  lemma {:induction false} ExceptKeeps(c: Setup, items: seq<EvidenceItem>, keys: set<EvidenceKey>,
          ever: set<EvidenceKey>)
    requires UniqueKeys(c, items) && NoneOf(c, items, ever)
    ensures var r := Except(c, items, keys);
      && |r| <= |items| && UniqueKeys(c, r) && NoneOf(c, r, ever) && NoneOf(c, r, keys)
      && forall e :: e in r ==> e in items
  {
    hide EvidenceKeyOf;
    if items != [] {
      ExceptKeeps(c, items[..|items| - 1], keys, ever);
      AppendUnique(c, Except(c, items[..|items| - 1], keys), items);
    }
  }

  lemma {:induction false} UnexpiredKeeps(c: Setup, s: PoolState, items: seq<EvidenceItem>, ever: set<EvidenceKey>)
    requires UniqueKeys(c, items) && NoneOf(c, items, ever)
    ensures var r := Unexpired(c, s, items);
      |r| <= |items| && UniqueKeys(c, r) && NoneOf(c, r, ever) && forall e :: e in r ==> e in items
  {
    hide EvidenceKeyOf, IsExpired;
    if items != [] {
      UnexpiredKeeps(c, s, items[..|items| - 1], ever);
      AppendUnique(c, Unexpired(c, s, items[..|items| - 1]), items);
    }
  }

  lemma CheckVoteKeeps(c: Setup, s: PoolState, s': PoolState, v: Vote, now: int, r: CheckResult, ever: set<EvidenceKey>)
    requires PoolInv(c, s, ever) && CheckVoteStep(c, s, s', v, now, r)
    ensures PoolInv(c, s', ever)
  {
    hide MadeRoom, VerifySignature, UniqueKeys, NoneOf, VotesInv, Conflict;
    if Signed(c, v) && KeyOf(v) !in s.seenVotes {
      var seen :| TrackStep(s, s', v, seen, r);
      TrackKeepsVotes(c, s, s', v, seen, r);
    }
  }

  lemma AddEvidenceKeeps(c: Setup, s: PoolState, e: EvidenceItem, ever: set<EvidenceKey>)
    requires PoolInv(c, s, ever)
    ensures PoolInv(c, AddEvidence(c, s, e).0, ever)
  {
    hide Signed, EvidenceKeyOf;
    var more := s.pending + [e];
    if AddEvidence(c, s, e).1 == None {
      assert EvidenceKeyOf(c, e).height == e.height && EvidenceKeyOf(c, e) !in ever by { KeyHasHeight(c, e); }
      forall i, j | 0 <= i < j < |more| ensures EvidenceKeyOf(c, more[i]) != EvidenceKeyOf(c, more[j]) {
        if j == |s.pending| { assert more[i] == s.pending[i]; }
      }
    }
  }

  lemma KeyHasHeight(c: Setup, e: EvidenceItem)
    ensures EvidenceKeyOf(c, e).height == e.height
  {}

  lemma MarkCommittedKeeps(c: Setup, s: PoolState, items: seq<EvidenceItem>, ever: set<EvidenceKey>)
    requires PoolInv(c, s, ever)
    ensures PoolInv(c, MarkCommitted(c, s, items), ever + KeysOf(c, items))
  {
    hide Signed, UniqueKeys, Except, KeysOf;
    ExceptKeeps(c, s.pending, KeysOf(c, items), ever);
  }

  lemma UpdateKeeps(c: Setup, s: PoolState, height: int, time: int, ever: set<EvidenceKey>)
    requires PoolInv(c, s, ever) && height >= s.height
    ensures PoolInv(c, Update(c, s, height, time), ever)
  {
    hide Signed, UniqueKeys, Unexpired, NoneOf;
    var s1 := s.(height := height, time := time);
    UnexpiredKeeps(c, s1, s.pending, ever);
    UpdateVotes(c, s, height, time);
  }

  lemma UpdateVotes(c: Setup, s: PoolState, height: int, time: int)
    requires VotesInv(c, s)
    ensures VotesInv(c, Update(c, s, height, time))
  {
    hide Signed;
    var after := Update(c, s, height, time).seenVotes;
    assert after.Keys <= s.seenVotes.Keys;
    Smaller(after.Keys, s.seenVotes.Keys);
  }

  lemma Smaller(a: set<VoteKey>, b: set<VoteKey>)
    requires a <= b
    ensures |a| <= |b|
  {
    assert b == a + (b - a);
  }

  /** The invariant holds in every state of every run. */
  lemma {:induction false} RunInv(c: Setup, states: seq<PoolState>, ops: seq<Op>, i: nat)
    requires IsRun(c, states, ops) && i <= |ops|
    ensures PoolInv(c, states[i], EverCommitted(c, ops[..i]))
  {
    hide PoolInv, CheckVoteStep, AddEvidence, MarkCommitted, Update;
    if i == 0 {
      NewPoolInv(c);
    } else {
      RunInv(c, states, ops, i - 1);
      assert ops[..i][..i - 1] == ops[..i - 1] && Step(c, states[i - 1], ops[i - 1], states[i - 1 + 1]);
      var ever := EverCommitted(c, ops[..i - 1]);
      assert !ops[i - 1].MarkCommittedOp? ==> EverCommitted(c, ops[..i]) == ever;
      match ops[i - 1]
      case CheckVoteOp(v, now, r) => CheckVoteKeeps(c, states[i - 1], states[i], v, now, r, ever);
      case AddEvidenceOp(e, _) => AddEvidenceKeeps(c, states[i - 1], e, ever);
      case MarkCommittedOp(items) => MarkCommittedKeeps(c, states[i - 1], items, ever);
      case UpdateOp(height, time) => UpdateKeeps(c, states[i - 1], height, time, ever);
    }
  }

  lemma NewPoolInv(c: Setup)
    ensures PoolInv(c, NewPool(), {})
  {}

  /** In every run, tracked votes and pending evidence stay within their limits. */
  lemma BoundedMemory(c: Setup, states: seq<PoolState>, ops: seq<Op>, i: nat)
    requires IsRun(c, states, ops) && i <= |ops|
    ensures |states[i].seenVotes| <= MAX_SEEN_VOTES && |states[i].pending| <= MAX_PENDING_EVIDENCE
  {
    hide IsRun;
    RunInv(c, states, ops, i);
  }

  /** In every run, evidence once committed is never pending again, even after its key was pruned. */
  lemma CommittedNeverPending(c: Setup, states: seq<PoolState>, ops: seq<Op>, i: nat, j: nat, k: nat, e: EvidenceItem)
    requires IsRun(c, states, ops) && i < j <= |ops| && ops[i].MarkCommittedOp?
    requires k < |states[j].pending| && e in ops[i].items
    ensures EvidenceKeyOf(c, states[j].pending[k]) != EvidenceKeyOf(c, e)
    ensures UniqueKeys(c, states[j].pending)
  {
    hide IsRun, EvidenceKeyOf;
    RunInv(c, states, ops, j);
    CommittedOnce(c, ops[..j], i, e);
  }

  lemma {:induction false} CommittedOnce(c: Setup, ops: seq<Op>, i: nat, e: EvidenceItem)
    requires i < |ops| && ops[i].MarkCommittedOp? && e in ops[i].items
    ensures EvidenceKeyOf(c, e) in EverCommitted(c, ops)
  {
    hide EvidenceKeyOf;
    if i < |ops| - 1 { CommittedOnce(c, ops[..|ops| - 1], i, e); }
  }

  // ----- Pending evidence -----

  /** The operation takes this item out of the pending evidence: it is committed, or expired at an update. */
  ghost predicate Removes(c: Setup, op: Op, e: EvidenceItem) {
    match op
    case MarkCommittedOp(items) => exists i :: 0 <= i < |items| && EvidenceKeyOf(c, items[i]) == EvidenceKeyOf(c, e)
    case UpdateOp(height, time) => TooOld(c, height, e.height) || time - e.time > c.maxAge
    case _ => false
  }

  predicate Accepts(op: Op, e: EvidenceItem) { op == AddEvidenceOp(e, None) }

  /** The item was accepted by an operation, and none after it has removed it. */
  ghost predicate AcceptedSince(c: Setup, ops: seq<Op>, e: EvidenceItem) {
    exists i :: 0 <= i < |ops| && Accepts(ops[i], e) && forall k :: i < k < |ops| ==> !Removes(c, ops[k], e)
  }

  lemma {:induction false} InExcept(c: Setup, items: seq<EvidenceItem>, keys: set<EvidenceKey>, e: EvidenceItem)
    ensures e in Except(c, items, keys) <==> e in items && EvidenceKeyOf(c, e) !in keys
  {
    hide EvidenceKeyOf;
    if items != [] { InExcept(c, items[..|items| - 1], keys, e); }
  }

  lemma {:induction false} InUnexpired(c: Setup, s: PoolState, items: seq<EvidenceItem>, e: EvidenceItem)
    ensures e in Unexpired(c, s, items) <==> e in items && !IsExpired(c, s, e)
  {
    hide IsExpired;
    if items != [] { InUnexpired(c, s, items[..|items| - 1], e); }
  }

  lemma PendingStep(c: Setup, s: PoolState, op: Op, s': PoolState, e: EvidenceItem)
    requires Step(c, s, op, s')
    ensures e in s'.pending <==> Accepts(op, e) || (e in s.pending && !Removes(c, op, e))
  {
    hide Except, Unexpired, EvidenceKeyOf, Conflict, VerifySignature, MadeRoom, IsPending;
    match op
    case CheckVoteOp(v, now, r) =>
      if Signed(c, v) && KeyOf(v) !in s.seenVotes { var seen :| TrackStep(s, s', v, seen, r); }
    case AddEvidenceOp(item, error) =>
    case MarkCommittedOp(items) => InExcept(c, s.pending, KeysOf(c, items), e);
    case UpdateOp(height, time) => InUnexpired(c, s.(height := height, time := time), s.pending, e);
  }

  /** In every run, evidence is pending exactly from when it is accepted until it is committed or expires. */
  lemma {:induction false} PendingIff(c: Setup, states: seq<PoolState>, ops: seq<Op>, j: nat, e: EvidenceItem)
    requires IsRun(c, states, ops) && j <= |ops|
    ensures e in states[j].pending <==> AcceptedSince(c, ops[..j], e)
  {
    hide Step, Removes, Accepts;
    if j > 0 {
      PendingIff(c, states, ops, j - 1, e);
      assert Step(c, states[j - 1], ops[j - 1], states[j - 1 + 1]);
      PendingStep(c, states[j - 1], ops[j - 1], states[j], e);
      SinceOneMore(c, ops[..j], e);
      assert ops[..j][..j - 1] == ops[..j - 1];
    }
  }

  lemma SinceOneMore(c: Setup, ops: seq<Op>, e: EvidenceItem)
    requires ops != []
    ensures var n := |ops| - 1;
      AcceptedSince(c, ops, e) <==> Accepts(ops[n], e) || (AcceptedSince(c, ops[..n], e) && !Removes(c, ops[n], e))
  {
    hide Removes, Accepts;
    var n := |ops| - 1;
    if AcceptedSince(c, ops[..n], e) && !Removes(c, ops[n], e) {
      var i :| 0 <= i < n && Accepts(ops[..n][i], e) && forall k :: i < k < n ==> !Removes(c, ops[..n][k], e);
      assert Accepts(ops[i], e);
      forall k | i < k < |ops| ensures !Removes(c, ops[k], e) { if k < n { assert ops[..n][k] == ops[k]; } }
    }
    if AcceptedSince(c, ops, e) && !Accepts(ops[n], e) {
      var i :| 0 <= i < |ops| && Accepts(ops[i], e) && forall k :: i < k < |ops| ==> !Removes(c, ops[k], e);
      assert Accepts(ops[..n][i], e) && forall k :: i < k < n ==> !Removes(c, ops[..n][k], e);
    }
  }

  /** Committed keys that are still known were committed by some operation. */
  lemma {:induction false} KnownWereCommitted(c: Setup, states: seq<PoolState>, ops: seq<Op>, i: nat)
    requires IsRun(c, states, ops) && i <= |ops|
    ensures states[i].committed <= EverCommitted(c, ops[..i])
  {
    hide EvidenceKeyOf, Except, Unexpired, Conflict, VerifySignature, MadeRoom;
    if i > 0 {
      KnownWereCommitted(c, states, ops, i - 1);
      assert ops[..i][..i - 1] == ops[..i - 1] && Step(c, states[i - 1], ops[i - 1], states[i - 1 + 1]);
    }
  }

  /**
   * In every run, evidence is accepted exactly when it has data, there is room, none with its key is
   * pending or was ever committed, and it has not expired.
   */
  lemma AcceptedIff(c: Setup, states: seq<PoolState>, ops: seq<Op>, i: nat)
    requires IsRun(c, states, ops) && i < |ops| && ops[i].AddEvidenceOp?
    ensures var e, s := ops[i].item, states[i];
      ops[i].error == None <==>
        && e.data != [] && |s.pending| < MAX_PENDING_EVIDENCE
        && (forall x :: x in s.pending ==> EvidenceKeyOf(c, x) != EvidenceKeyOf(c, e))
        && EvidenceKeyOf(c, e) !in EverCommitted(c, ops[..i])
        && s.height - e.height <= c.maxAgeBlocks && s.time - e.time <= c.maxAge
  {
    hide EverCommitted, EvidenceKeyOf, UniqueKeys, NoneOf, VotesInv;
    var e := ops[i].item;
    assert Step(c, states[i], ops[i], states[i + 1]);
    RunInv(c, states, ops, i);
    KnownWereCommitted(c, states, ops, i);
    KeyHasHeight(c, e);
  }

  /** In every run, an update forgets exactly the committed keys and tracked votes that have become too old. */
  lemma UpdateForgets(c: Setup, states: seq<PoolState>, ops: seq<Op>, i: nat)
    requires IsRun(c, states, ops) && i < |ops| && ops[i].UpdateOp?
    ensures var s, s', height := states[i], states[i + 1], ops[i].height;
      && (forall k :: k in s'.committed <==>
            k in s.committed && (k.height >= height || height - k.height <= c.maxAgeBlocks))
      && (forall k :: k in s'.seenVotes <==>
            k in s.seenVotes && (s.seenVotes[k].height >= height || height - s.seenVotes[k].height <= c.maxAgeBlocks))
      && (forall k :: k in s'.seenVotes ==> s'.seenVotes[k] == s.seenVotes[k])
  {
    hide Unexpired;
    assert Step(c, states[i], ops[i], states[i + 1]);
  }

  // ----- Detection -----

  /** The vote is young enough to be neither pruned nor expired. */
  predicate WithinWindow(c: Setup, s: PoolState, v: Vote) {
    v.height >= 0 && s.height - v.height <= VOTE_PROTECTION_WINDOW && !TooOld(c, s.height, v.height)
  }

  lemma StepKeepsVote(c: Setup, s: PoolState, op: Op, s': PoolState, key: VoteKey)
    requires Step(c, s, op, s') && key in s.seenVotes && WithinWindow(c, s', s.seenVotes[key])
    ensures key in s'.seenVotes && s'.seenVotes[key] == s.seenVotes[key]
    ensures s.height <= s'.height
  {
    hide VerifySignature, Conflict, Except, Unexpired, IsPending, KeysOf;
    if op.CheckVoteOp? && Signed(c, op.vote) && KeyOf(op.vote) !in s.seenVotes {
      var seen :| TrackStep(s, s', op.vote, seen, op.result);
      assert key in seen;
    }
  }

  /** A tracked vote stays tracked as long as it is within the window. */
  lemma {:induction false} StaysTracked(c: Setup, states: seq<PoolState>, ops: seq<Op>, i: nat, j: nat, key: VoteKey)
    requires IsRun(c, states, ops) && i <= j <= |ops|
    requires key in states[i].seenVotes && WithinWindow(c, states[j], states[i].seenVotes[key])
    ensures key in states[j].seenVotes && states[j].seenVotes[key] == states[i].seenVotes[key]
    decreases j - i
  {
    hide Step, WithinWindow;
    if i < j {
      HeightsGrow(c, states, ops, i, j - 1);
      HeightsGrow(c, states, ops, j - 1, j);
      Younger(c, states[j - 1], states[j], states[i].seenVotes[key]);
      StaysTracked(c, states, ops, i, j - 1, key);
      assert Step(c, states[j - 1], ops[j - 1], states[j - 1 + 1]);
      StepKeepsVote(c, states[j - 1], ops[j - 1], states[j], key);
    }
  }

  lemma Younger(c: Setup, s: PoolState, s': PoolState, v: Vote)
    requires s.height <= s'.height && WithinWindow(c, s', v)
    ensures WithinWindow(c, s, v)
  {}

  lemma {:induction false} HeightsGrow(c: Setup, states: seq<PoolState>, ops: seq<Op>, i: nat, j: nat)
    requires IsRun(c, states, ops) && i <= j <= |ops|
    ensures states[i].height <= states[j].height
    decreases j - i
  {
    if i < j {
      HeightsGrow(c, states, ops, i, j - 1);
      assert Step(c, states[j - 1], ops[j - 1], states[j - 1 + 1]);
    }
  }

  /** A vote answered with nothing is tracked, or one for the same block is. */
  lemma AnsweredIsTracked(c: Setup, s: PoolState, s': PoolState, v: Vote, now: int)
    requires CheckVoteStep(c, s, s', v, now, Nothing)
    ensures Signed(c, v) && KeyOf(v) in s'.seenVotes && ForSameBlock(s'.seenVotes[KeyOf(v)], v)
  {
    hide MadeRoom, VerifySignature, VerifyDuplicateVote;
    if KeyOf(v) !in s.seenVotes {
      var seen :| TrackStep(s, s', v, seen, Nothing);
    }
  }

  /**
   * In every run, a signed vote at a place where none is tracked is answered with nothing, unless the
   * pool is at its limit and all tracked votes are within the protection window.
   */
  lemma FirstVoteTracked(c: Setup, states: seq<PoolState>, ops: seq<Op>, i: nat)
    requires IsRun(c, states, ops) && i < |ops| && ops[i].CheckVoteOp?
    requires Signed(c, ops[i].vote) && KeyOf(ops[i].vote) !in states[i].seenVotes
    ensures ops[i].result == Nothing <==>
      |states[i].seenVotes| < MAX_SEEN_VOTES
      || exists k :: k in states[i].seenVotes && states[i].seenVotes[k].height < ProtectedHeight(states[i].height)
  {
    hide VerifySignature, EverCommitted;
    assert Step(c, states[i], ops[i], states[i + 1]);
    RunInv(c, states, ops, i);
    var s, v := states[i], ops[i].vote;
    var seen :| TrackStep(s, states[i + 1], v, seen, ops[i].result);
    if |s.seenVotes| >= MAX_SEEN_VOTES {
      if |seen| == |s.seenVotes| {
        NothingPruned(s.seenVotes, seen);
      } else {
        assert seen.Keys <= s.seenVotes.Keys;
        assert (forall k :: k in s.seenVotes ==> k in seen) ==> seen.Keys == s.seenVotes.Keys;
        var k :| k in s.seenVotes && k !in seen;
      }
    }
  }

  lemma NothingPruned(before: map<VoteKey, Vote>, after: map<VoteKey, Vote>)
    requires |after| == |before| && forall k :: k in after ==> k in before && after[k] == before[k]
    ensures forall k :: k in before ==> k in after
  {
    assert after.Keys <= before.Keys;
    Same(after.Keys, before.Keys);
  }

  lemma Same(a: set<VoteKey>, b: set<VoteKey>)
    requires a <= b && |a| == |b|
    ensures a == b
  {
    assert b == a + (b - a);
    assert b - a == {};
  }

  /**
   * In every run, once a vote was answered with nothing, a validly signed vote for another block at the
   * same place, within the window, is answered with evidence against it, and the evidence verifies.
   */
  lemma ConflictDetected(c: Setup, states: seq<PoolState>, ops: seq<Op>, i: nat, j: nat, v: Vote, w: Vote)
    requires IsRun(c, states, ops) && i < j < |ops| && ops[i].CheckVoteOp? && ops[j].CheckVoteOp?
    requires ops[i].vote == v && ops[i].result == Nothing && ops[j].vote == w
    requires KeyOf(v) == KeyOf(w) && !ForSameBlock(v, w) && Signed(c, w) && WithinWindow(c, states[j], w)
    ensures ops[j].result.Equivocation?
    ensures var e := ops[j].result.evidence;
      && KeyOf(e.voteA) == KeyOf(v) && ForSameBlock(e.voteA, v) && e.voteB == w
      && VerifyDuplicateVote(c, e) == None && e.totalPower == c.vals.totalPower && e.timestamp == ops[j].now
      && ByName(c.vals.validators, w.validator).Some?
      && e.validatorPower == ByName(c.vals.validators, w.validator).value.votingPower
  {
    hide Pruned, TrackStep, VerifySignature, EverCommitted, VerifyDuplicateVote;
    assert Step(c, states[i], ops[i], states[i + 1]);
    AnsweredIsTracked(c, states[i], states[i + 1], v, ops[i].now);
    RunInv(c, states, ops, i + 1);
    assert VotesInv(c, states[i + 1]);
    var first := states[i + 1].seenVotes[KeyOf(v)];
    assert first.height == w.height by { assert KeyOf(first) == KeyOf(w); }
    StaysTracked(c, states, ops, i + 1, j, KeyOf(v));
    assert Step(c, states[j], ops[j], states[j + 1]);
    VerifiesIff(c, DuplicateVote(first, w, c.vals.totalPower, ByName(c.vals.validators, w.validator).value.votingPower,
                                 ops[j].now));
  }
}
