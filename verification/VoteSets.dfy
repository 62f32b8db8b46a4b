/**
 * Vote sets as values: what one AddVote call does to the recorded votes, the running power sums
 * and the recorded majority, and what holds of a set after any sequence of calls.
 */
module VoteSets {
  import opened Types
  import opened Validators

  datatype VoteType = Prevote | Precommit | OtherVote(code: int)

  datatype Vote = Vote(
    vtype: VoteType,
    height: int,
    round: int,
    blockHash: Option<Bytes>,
    timestamp: int,
    validator: string,
    index: int,
    signature: Bytes)

  /** Ed25519 verification of a signature over the sign bytes of a vote, for one fixed chain. */
  type Ed25519 = (Bytes, Vote, Bytes) -> bool

  const PUBLIC_KEY_SIZE := 32
  const SIGNATURE_SIZE := 64
  const MAX_TIMESTAMP_DRIFT := 600_000_000_000

  /** The sign bytes cover every field of the vote but the signature. */
  function SignBytes(v: Vote): Vote { v.(signature := []) }

  predicate VerifySignature(verify: Ed25519, key: Bytes, v: Vote) {
    |key| == PUBLIC_KEY_SIZE && |v.signature| == SIGNATURE_SIZE && verify(key, SignBytes(v), v.signature)
  }

  datatype VoteError =
    | StaleVoteSet | InvalidHeight | InvalidVote | UnknownValidator | InvalidSignature
    | ConflictingVote | SumOverflow | BlockPowerOverflow

  datatype AddResult = Added | Duplicate | Rejected(error: VoteError)

  datatype BlockVotes = BlockVotes(blockHash: Option<Bytes>, votes: seq<Vote>, totalPower: int)

  const NO_BLOCK_VOTES := BlockVotes(None, [], 0)

  /** The fields of a vote set; `maj23` names the entry of `byBlock` that reached the quorum first. */
  datatype Tally = Tally(
    height: int,
    round: int,
    vtype: VoteType,
    vals: ValidatorSet,
    votes: map<int, Vote>,
    byBlock: map<Option<Bytes>, BlockVotes>,
    sum: int,
    maj23: Option<Option<Bytes>>)
  {
    function TwoThirdsMajority(): Option<Option<Bytes>> { maj23 }

    predicate HasTwoThirdsMajority() { maj23.Some? }

    predicate HasTwoThirdsAny() { sum >= vals.TwoThirdsMajority() }

    /** The validators recorded for a value. */
    ghost function Voters(key: Option<Bytes>): set<int> {
      set i | i in votes && BlockKey(votes[i].blockHash) == key
    }

    ghost predicate Matches(v: Vote) {
      v.height == height && v.round == round && v.vtype == vtype
    }

    /** Every recorded vote is for this set and stored under the index of its validator. */
    ghost predicate Indexed() {
      forall i :: i in votes ==> 0 <= i < |vals.validators| && votes[i].index == i && Matches(votes[i])
    }

    /** What holds after every sequence of AddVote calls on an empty set. */
    ghost predicate Valid() {
      && vals.Valid()
      && Indexed()
      && sum == PowerOf(vals.validators, votes.Keys)
      && (forall i :: i in votes ==> BlockKey(votes[i].blockHash) in byBlock)
      && (forall key :: key in byBlock ==> EntryExact(this, key))
      && (forall key :: maj23 == Some(key) <==> key in byBlock && IsQuorum(vals, Voters(key)))
    }

    /** `vs` lists the recorded vote of each member of `who` and nothing else, none twice. */
    ghost predicate HoldsExactly(vs: seq<Vote>, who: set<int>) {
      && (forall j :: 0 <= j < |vs| ==> vs[j].index in who && vs[j].index in votes && vs[j] == votes[vs[j].index])
      && (forall i :: i in who ==> i in votes && votes[i] in vs)
      && (forall j, k :: 0 <= j < k < |vs| ==> vs[j].index != vs[k].index)
    }

    /** Every recorded vote carries a verified signature of the validator it names. */
    ghost predicate Genuine(verify: Ed25519) {
      forall i :: i in votes ==>
        && 0 <= i < |vals.validators|
        && votes[i].validator == vals.validators[i].name
        && VerifySignature(verify, vals.validators[i].publicKey, votes[i])
    }
  }

  function EmptyTally(height: int, round: int, vtype: VoteType, vals: ValidatorSet): Tally {
    Tally(height, round, vtype, vals, map[], map[], 0, None)
  }

  /** Equality of votes up to timestamp and signature. */
  predicate VotesEqual(a: Vote, b: Vote) {
    a.vtype == b.vtype && a.height == b.height && a.round == b.round && a.index == b.index
    && a.blockHash == b.blockHash
  }

  function AddVoteInternal(verify: Ed25519, t: Tally, v: Vote): (Tally, AddResult) {
    var val := t.vals.GetByIndex(v.index);
    if val.None? || val.value.name != v.validator then (t, Rejected(UnknownValidator))
    else if !VerifySignature(verify, val.value.publicKey, v) then (t, Rejected(InvalidSignature))
    else if v.index in t.votes then
      (t, if VotesEqual(t.votes[v.index], v) then Duplicate else Rejected(ConflictingVote))
    else
      var power := val.value.votingPower;
      var key := BlockKey(v.blockHash);
      var bv := if key in t.byBlock then t.byBlock[key] else NO_BLOCK_VOTES;
      if power > 0 && t.sum > MAX_INT64 - power then (t, Rejected(SumOverflow))
      else if power > 0 && bv.totalPower > MAX_INT64 - power then (t, Rejected(BlockPowerOverflow))
      else
        (Record(t, v, power), Added)
  }

  /** The modifications made once every check has passed. */
  function Record(t: Tally, v: Vote, power: int): Tally {
    var key := BlockKey(v.blockHash);
    var bv := if key in t.byBlock then t.byBlock[key] else NO_BLOCK_VOTES.(blockHash := v.blockHash);
    var bv' := bv.(votes := bv.votes + [v], totalPower := bv.totalPower + power);
    t.(votes := t.votes[v.index := v],
       byBlock := t.byBlock[key := bv'],
       sum := t.sum + power,
       maj23 := if bv'.totalPower >= t.vals.TwoThirdsMajority() && t.maj23.None? then Some(key) else t.maj23)
  }

  /** AddVote of a live vote set, at clock reading `now`. */
  function AddVote(verify: Ed25519, now: int, t: Tally, v: Vote): (Tally, AddResult) {
    if v.height != t.height || v.round != t.round || v.vtype != t.vtype then (t, Rejected(InvalidVote))
    else if v.timestamp > now + MAX_TIMESTAMP_DRIFT then (t, Rejected(InvalidVote))
    else if v.timestamp < now - MAX_TIMESTAMP_DRIFT then (t, Rejected(InvalidVote))
    else AddVoteInternal(verify, t, v)
  }

  lemma EmptyTallyValid(height: int, round: int, vtype: VoteType, vals: ValidatorSet)
    requires vals.Valid()
    ensures EmptyTally(height, round, vtype, vals).Valid()
  {
    var t := EmptyTally(height, round, vtype, vals);
    assert t.votes.Keys == {};
    PowerOfEmpty(vals.validators);
  }

  /** The power of the voters for one value after recording a vote. */
  lemma RecordVoters(t: Tally, v: Vote, power: int, key: Option<Bytes>)
    requires t.Valid() && v.index !in t.votes
    requires 0 <= v.index < |t.vals.validators| && power == t.vals.validators[v.index].votingPower
    ensures var t' := Record(t, v, power);
      && t'.Voters(key) == (if key == BlockKey(v.blockHash) then t.Voters(key) + {v.index} else t.Voters(key))
      && PowerOf(t.vals.validators, t'.Voters(key))
         == PowerOf(t.vals.validators, t.Voters(key)) + (if key == BlockKey(v.blockHash) then power else 0)
  {
    var t' := Record(t, v, power);
    assert t'.Voters(key) == if key == BlockKey(v.blockHash) then t.Voters(key) + {v.index} else t.Voters(key);
    if key == BlockKey(v.blockHash) { PowerOfAdd(t.vals.validators, t.Voters(key), v.index); }
  }

  /** A value nobody voted for has no entry and no power. */
  lemma NoVotersNoPower(t: Tally, key: Option<Bytes>)
    requires t.Valid() && key !in t.byBlock
    ensures t.Voters(key) == {} && PowerOf(t.vals.validators, t.Voters(key)) == 0
    ensures !IsQuorum(t.vals, t.Voters(key))
  {
    assert forall i :: i in t.votes ==> BlockKey(t.votes[i].blockHash) != key;
    assert t.Voters(key) == {};
    PowerOfEmpty(t.vals.validators);
    QuorumIsLeastAboveTwoThirds(t.vals);
  }

  /** Two values cannot both have a quorum in one vote set. */
  lemma OneQuorumPerTally(t: Tally, a: Option<Bytes>, b: Option<Bytes>)
    requires t.Valid() && IsQuorum(t.vals, t.Voters(a)) && IsQuorum(t.vals, t.Voters(b))
    ensures a == b
  {
    if a != b { DisjointQuorumsImpossible(t.vals, t.Voters(a), t.Voters(b)); }
  }

  /** Power never exceeds the total, so no sum can overflow. */
  lemma SumsBounded(t: Tally, key: Option<Bytes>)
    requires t.Valid()
    ensures 0 <= PowerOf(t.vals.validators, t.Voters(key)) <= t.sum <= MAX_TOTAL_VOTING_POWER
  {
    PowerOfMonotone(t.vals.validators, t.Voters(key), t.votes.Keys);
  }

  /** One entry of the per-value table agrees with the recorded votes. */
  ghost predicate EntryExact(t: Tally, key: Option<Bytes>) {
    key in t.byBlock ==>
      && BlockKey(t.byBlock[key].blockHash) == key
      && t.byBlock[key].totalPower == PowerOf(t.vals.validators, t.Voters(key))
      && t.HoldsExactly(t.byBlock[key].votes, t.Voters(key))
  }

  lemma EntryAfterRecord(t: Tally, v: Vote, power: int, key: Option<Bytes>)
    requires t.Valid() && t.Matches(v) && v.index !in t.votes
    requires 0 <= v.index < |t.vals.validators| && power == t.vals.validators[v.index].votingPower
    ensures EntryExact(Record(t, v, power), key)
  {
    RecordVoters(t, v, power, key);
    if key !in t.byBlock { NoVotersNoPower(t, key); }
    hide IsQuorum, PowerOf, BlockKey, ValidatorSet.Valid;
    var t' := Record(t, v, power);
    if key in t'.byBlock {
      var before := if key in t.byBlock then t.byBlock[key].votes else [];
      assert t.HoldsExactly(before, t.Voters(key));
      if key == BlockKey(v.blockHash) {
        HoldsOneMore(t, v, power, before, t.Voters(key));
      } else {
        HoldsStill(t, v, power, before, t.Voters(key));
      }
    }
  }

  lemma HoldsOneMore(t: Tally, v: Vote, power: int, vs: seq<Vote>, who: set<int>)
    requires t.HoldsExactly(vs, who) && v.index !in t.votes
    ensures Record(t, v, power).HoldsExactly(vs + [v], who + {v.index})
  {
    hide BlockKey;
    var all := vs + [v];
    assert all[|vs|] == v;
    var t' := Record(t, v, power);
    forall i | i in who + {v.index} ensures i in t'.votes && t'.votes[i] in all {
      if i in who { assert t.votes[i] in vs; }
    }
  }

  lemma HoldsStill(t: Tally, v: Vote, power: int, vs: seq<Vote>, who: set<int>)
    requires t.HoldsExactly(vs, who) && v.index !in t.votes
    ensures Record(t, v, power).HoldsExactly(vs, who)
  {
    hide BlockKey;
  }

  lemma RecordKeepsMajority(t: Tally, v: Vote, power: int)
    requires t.Valid() && t.Matches(v) && v.index !in t.votes
    requires 0 <= v.index < |t.vals.validators| && power == t.vals.validators[v.index].votingPower
    ensures var t' := Record(t, v, power);
      forall key :: t'.maj23 == Some(key) <==> key in t'.byBlock && IsQuorum(t'.vals, t'.Voters(key))
  {
    var t' := Record(t, v, power);
    var voted := BlockKey(v.blockHash);
    forall key
      ensures t'.maj23 == Some(key) <==> key in t'.byBlock && IsQuorum(t'.vals, t'.Voters(key))
    {
      RecordVoters(t, v, power, key);
      EntryAfterRecord(t, v, power, key);
      if t.maj23.Some? {
        var won := t.maj23.value;
        RecordVoters(t, v, power, won);
        assert IsQuorum(t'.vals, t'.Voters(won));
        if key != won && key in t'.byBlock && IsQuorum(t'.vals, t'.Voters(key)) {
          assert forall i :: !(i in t'.Voters(won) && i in t'.Voters(key));
          DisjointQuorumsImpossible(t'.vals, t'.Voters(won), t'.Voters(key));
        }
      } else if key in t.byBlock {
        assert !IsQuorum(t.vals, t.Voters(key));
      }
    }
  }

  lemma RecordValid(t: Tally, v: Vote, power: int)
    requires t.Valid() && t.Matches(v) && v.index !in t.votes
    requires 0 <= v.index < |t.vals.validators| && power == t.vals.validators[v.index].votingPower
    ensures Record(t, v, power).Valid()
  {
    hide EntryExact, IsQuorum, PowerOf, BlockKey, ValidatorSet.Valid;
    var t' := Record(t, v, power);
    assert t'.votes.Keys == t.votes.Keys + {v.index};
    PowerOfAdd(t.vals.validators, t.votes.Keys, v.index);
    forall key | key in t'.byBlock ensures EntryExact(t', key) { EntryAfterRecord(t, v, power, key); }
    RecordKeepsMajority(t, v, power);
  }

  /** Recording a vote whose signature was checked keeps every signature checked. */
  lemma RecordGenuine(verify: Ed25519, t: Tally, v: Vote, power: int)
    requires t.Genuine(verify) && 0 <= v.index < |t.vals.validators|
    requires v.validator == t.vals.validators[v.index].name
    requires VerifySignature(verify, t.vals.validators[v.index].publicKey, v)
    ensures Record(t, v, power).Genuine(verify)
  {
    var t' := Record(t, v, power);
    forall i | i in t'.votes
      ensures 0 <= i < |t'.vals.validators|
      ensures t'.votes[i].validator == t'.vals.validators[i].name
      ensures VerifySignature(verify, t'.vals.validators[i].publicKey, t'.votes[i])
    {
      if i != v.index { assert i in t.votes; }
    }
  }

  /** No sum can exceed the total power, so the overflow checks never fire. */
  lemma NoOverflow(t: Tally, v: Vote)
    requires t.Valid() && v.index !in t.votes && 0 <= v.index < |t.vals.validators|
    ensures var power := t.vals.validators[v.index].votingPower;
      && 0 < power <= t.sum + power <= MAX_TOTAL_VOTING_POWER
      && (BlockKey(v.blockHash) in t.byBlock ==>
            t.byBlock[BlockKey(v.blockHash)].totalPower + power <= MAX_TOTAL_VOTING_POWER)
  {
    SumsBounded(t, BlockKey(v.blockHash));
    PowerOfAdd(t.vals.validators, t.votes.Keys, v.index);
    PowerOfMonotone(t.vals.validators, t.votes.Keys + {v.index}, t.votes.Keys + {v.index});
  }

  /**
   * One AddVote call keeps every invariant of the set, keeps a recorded majority, records the vote
   * exactly when it answers Added, and never takes an overflow branch.
   */
  lemma AddVoteCorrect(verify: Ed25519, t: Tally, v: Vote)
    requires t.Valid() && t.Genuine(verify) && t.Matches(v)
    ensures var (t', r) := AddVoteInternal(verify, t, v);
      && t'.Valid() && t'.Genuine(verify)
      && (t.maj23.Some? ==> t'.maj23 == t.maj23)
      && t'.votes == (if r == Added then t.votes[v.index := v] else t.votes)
      && (r != Added ==> t' == t)
      && r != Rejected(SumOverflow) && r != Rejected(BlockPowerOverflow)
  {
    hide Tally.Valid, Tally.Genuine, BlockKey;
    var val := t.vals.GetByIndex(v.index);
    if val.Some? && val.value.name == v.validator && v.index !in t.votes
       && VerifySignature(verify, val.value.publicKey, v) {
      NoOverflow(t, v);
      RecordValid(t, v, val.value.votingPower);
      RecordGenuine(verify, t, v, val.value.votingPower);
    }
  }

  /**
   * A vote is added exactly when it is for this set, its timestamp is within the drift of the clock, it
   * names a validator and carries that validator's signature, and none of that validator is recorded.
   */
  lemma AddedIff(verify: Ed25519, now: int, t: Tally, v: Vote)
    requires t.Valid()
    ensures AddVote(verify, now, t, v).1 == Added <==>
      && t.Matches(v) && now - MAX_TIMESTAMP_DRIFT <= v.timestamp <= now + MAX_TIMESTAMP_DRIFT
      && 0 <= v.index < |t.vals.validators| && t.vals.validators[v.index].name == v.validator
      && VerifySignature(verify, t.vals.validators[v.index].publicKey, v) && v.index !in t.votes
  {
    hide Record, BlockKey, VerifySignature, EntryExact, IsQuorum;
    if 0 <= v.index < |t.vals.validators| && v.index !in t.votes { NoOverflow(t, v); }
  }

  // ----- Order independence -----

  /** Adding a list of votes one after the other. */
  function AddAll(verify: Ed25519, t: Tally, vs: seq<Vote>): Tally {
    if vs == [] then t else
      AddVoteInternal(verify, AddAll(verify, t, vs[..|vs| - 1]), vs[|vs| - 1]).0
  }

  /** A vote this set accepts from a validator it has not heard of. */
  predicate Acceptable(verify: Ed25519, t: Tally, v: Vote) {
    && v.height == t.height && v.round == t.round && v.vtype == t.vtype
    && 0 <= v.index < |t.vals.validators|
    && t.vals.validators[v.index].name == v.validator
    && VerifySignature(verify, t.vals.validators[v.index].publicKey, v)
  }

  ghost predicate ConflictFree(vs: seq<Vote>) {
    forall i, j :: 0 <= i < |vs| && 0 <= j < |vs| && vs[i].index == vs[j].index ==> vs[i] == vs[j]
  }

  /** Two sets count votes of the same kind under the same validators. */
  predicate SameKind(a: Tally, b: Tally) {
    a.height == b.height && a.round == b.round && a.vtype == b.vtype && a.vals == b.vals
  }

  lemma AddAcceptable(verify: Ed25519, t: Tally, v: Vote)
    requires t.Valid() && t.Genuine(verify) && Acceptable(verify, t, v)
    requires v.index in t.votes ==> t.votes[v.index] == v
    ensures var t' := AddVoteInternal(verify, t, v).0;
      t'.Valid() && t'.Genuine(verify) && SameKind(t, t') && t'.votes == t.votes[v.index := v]
  {
    hide Tally.Valid, Tally.Genuine, BlockKey, Record;
    AddVoteCorrect(verify, t, v);
    RecordKind(t, v, t.vals.validators[v.index].votingPower);
  }

  lemma RecordKind(t: Tally, v: Vote, power: int)
    ensures SameKind(t, Record(t, v, power))
  {}

  /** The recorded votes are exactly the votes of the list, each under its validator. */
  ghost predicate RecordsExactly(votes: map<int, Vote>, vs: seq<Vote>) {
    && (forall i :: i in votes ==> votes[i] in vs && votes[i].index == i)
    && (forall v :: v in vs ==> v.index in votes && votes[v.index] == v)
  }

  lemma {:induction false} AddAllRecords(verify: Ed25519, t: Tally, vs: seq<Vote>)
    requires t.Valid() && t.votes == map[]
    requires ConflictFree(vs) && forall i :: 0 <= i < |vs| ==> Acceptable(verify, t, vs[i])
    ensures var t' := AddAll(verify, t, vs);
      t'.Valid() && t'.Genuine(verify) && SameKind(t, t') && RecordsExactly(t'.votes, vs)
  {
    hide Tally.Valid, VerifySignature, AddVoteInternal;
    if vs != [] {
      var n := |vs| - 1;
      AddAllRecords(verify, t, vs[..n]);
      var t1 := AddAll(verify, t, vs[..n]);
      assert vs == vs[..n] + [vs[n]];
      assert vs[n].index in t1.votes ==> t1.votes[vs[n].index] in vs;
      assert Acceptable(verify, t1, vs[n]);
      AddAcceptable(verify, t1, vs[n]);
      RecordsOneMore(t1.votes, vs[..n], vs[n]);
    }
  }

  lemma RecordsOneMore(votes: map<int, Vote>, vs: seq<Vote>, v: Vote)
    requires RecordsExactly(votes, vs) && ConflictFree(vs + [v])
    ensures RecordsExactly(votes[v.index := v], vs + [v])
  {
    var all := vs + [v];
    assert all[|vs|] == v;
    forall w | w in all ensures w.index in votes[v.index := v] && votes[v.index := v][w.index] == w {
      var j :| 0 <= j < |all| && all[j] == w;
    }
  }

  /** The recorded votes fix the power sum and the majority. */
  lemma VotesDetermineTally(a: Tally, b: Tally)
    requires a.Valid() && b.Valid() && a.vals == b.vals && a.votes == b.votes
    ensures a.sum == b.sum && a.maj23 == b.maj23
  {
    forall key ensures a.maj23 == Some(key) <==> b.maj23 == Some(key) {
      assert a.Voters(key) == b.Voters(key);
      if key !in a.byBlock { NoVotersNoPower(a, key); }
      if key !in b.byBlock { NoVotersNoPower(b, key); }
    }
    if a.maj23.Some? { assert a.maj23 == Some(a.maj23.value); }
    if b.maj23.Some? { assert b.maj23 == Some(b.maj23.value); }
  }

  lemma SameElementsSameFacts(verify: Ed25519, t: Tally, xs: seq<Vote>, ys: seq<Vote>)
    requires ConflictFree(xs) && forall i :: 0 <= i < |xs| ==> Acceptable(verify, t, xs[i])
    requires forall v :: v in xs <==> v in ys
    ensures ConflictFree(ys) && forall i :: 0 <= i < |ys| ==> Acceptable(verify, t, ys[i])
  {
    forall i | 0 <= i < |ys| ensures ys[i] in xs { assert ys[i] in ys; }
  }

  lemma RecordsExactlyUnique(a: map<int, Vote>, b: map<int, Vote>, xs: seq<Vote>, ys: seq<Vote>)
    requires RecordsExactly(a, xs) && RecordsExactly(b, ys)
    requires forall v :: v in xs <==> v in ys
    ensures a == b
  {
    forall i | i in a ensures i in b && b[i] == a[i] { assert a[i] in ys; }
    forall i | i in b ensures i in a { assert b[i] in xs; }
  }

  /** The same conflict-free votes in any order and with any repetition give the same result. */
  lemma OrderIndependence(verify: Ed25519, t: Tally, xs: seq<Vote>, ys: seq<Vote>)
    requires t.Valid() && t.votes == map[]
    requires ConflictFree(xs) && forall i :: 0 <= i < |xs| ==> Acceptable(verify, t, xs[i])
    requires forall v :: v in xs <==> v in ys
    ensures var a := AddAll(verify, t, xs); var b := AddAll(verify, t, ys);
      a.votes == b.votes && a.sum == b.sum && a.maj23 == b.maj23
  {
    hide AddAll, Acceptable, RecordsExactly, Tally.Valid, Tally.Genuine;
    SameElementsSameFacts(verify, t, xs, ys);
    AddAllRecords(verify, t, xs);
    AddAllRecords(verify, t, ys);
    RecordsExactlyUnique(AddAll(verify, t, xs).votes, AddAll(verify, t, ys).votes, xs, ys);
    VotesDetermineTally(AddAll(verify, t, xs), AddAll(verify, t, ys));
  }

  // ----- All votes of one height -----

  datatype HeightVotes = HeightVotes(
    height: int,
    vals: ValidatorSet,
    prevotes: map<int, Tally>,
    precommits: map<int, Tally>)
  {
    function Prevotes(round: int): Option<Tally> {
      if round in prevotes then Some(prevotes[round]) else None
    }

    function Precommits(round: int): Option<Tally> {
      if round in precommits then Some(precommits[round]) else None
    }

    /** The vote set of a round, empty when no vote has come in. */
    function SetOf(vtype: VoteType, round: int): Tally {
      var t := if vtype == Prevote then Prevotes(round) else Precommits(round);
      if t.Some? then t.value else EmptyTally(height, round, vtype, vals)
    }

    ghost predicate Valid(verify: Ed25519) {
      && vals.Valid()
      && (forall r :: r in prevotes ==> Holds(verify, prevotes[r], Prevote, r))
      && (forall r :: r in precommits ==> Holds(verify, precommits[r], Precommit, r))
    }

    /** A vote set kept for one kind of vote and one round of this height. */
    ghost predicate Holds(verify: Ed25519, t: Tally, vtype: VoteType, round: int) {
      && t.Valid() && t.Genuine(verify)
      && t.height == height && t.round == round && t.vtype == vtype && t.vals == vals
    }

    /** Every recorded vote is one of `known`. */
    ghost predicate Within(known: set<Vote>) {
      && (forall r, i :: r in prevotes && i in prevotes[r].votes ==> prevotes[r].votes[i] in known)
      && (forall r, i :: r in precommits && i in precommits[r].votes ==> precommits[r].votes[i] in known)
    }
  }

  function NoVotes(height: int, vals: ValidatorSet): HeightVotes {
    HeightVotes(height, vals, map[], map[])
  }

  /** AddVote on the votes of a height: the vote set of its round and type is created on demand. */
  function AddToHeight(verify: Ed25519, now: int, hv: HeightVotes, v: Vote): (HeightVotes, AddResult) {
    if v.height != hv.height then (hv, Rejected(InvalidHeight))
    else if v.vtype == Prevote then
      var (t', r) := AddVote(verify, now, hv.SetOf(Prevote, v.round), v);
      (hv.(prevotes := hv.prevotes[v.round := t']), r)
    else if v.vtype == Precommit then
      var (t', r) := AddVote(verify, now, hv.SetOf(Precommit, v.round), v);
      (hv.(precommits := hv.precommits[v.round := t']), r)
    else (hv, Rejected(InvalidVote))
  }

  /** The vote names a validator of the set and carries that validator's signature. */
  predicate Authentic(verify: Ed25519, vals: ValidatorSet, v: Vote) {
    && 0 <= v.index < |vals.validators|
    && vals.validators[v.index].name == v.validator
    && VerifySignature(verify, vals.validators[v.index].publicKey, v)
  }

  /** What one AddVote call does to a single vote set, seen from the outside. */
  ghost predicate TallyStep(verify: Ed25519, t: Tally, t': Tally, v: Vote, r: AddResult) {
    && t'.Valid() && t'.Genuine(verify) && SameKind(t, t')
    && (t.maj23.Some? ==> t'.maj23 == t.maj23)
    && (r == Added ==> Authentic(verify, t.vals, v) && t'.votes == t.votes[v.index := v])
    && (r != Added ==> t' == t)
  }

  lemma AddVoteStep(verify: Ed25519, now: int, t: Tally, v: Vote)
    requires t.Valid() && t.Genuine(verify)
    ensures var (t', r) := AddVote(verify, now, t, v); TallyStep(verify, t, t', v, r)
  {
    hide Tally.Valid, Tally.Genuine, BlockKey, Record;
    if t.Matches(v) {
      AddVoteCorrect(verify, t, v);
      if 0 <= v.index < |t.vals.validators| {
        RecordKind(t, v, t.vals.validators[v.index].votingPower);
      }
    }
  }

  /** What survives an AddVote call on the votes of a height. */
  ghost predicate HeightStep(verify: Ed25519, hv: HeightVotes, hv': HeightVotes) {
    && hv'.Valid(verify) && hv'.height == hv.height && hv'.vals == hv.vals
    && (forall r :: r in hv.prevotes && hv.prevotes[r].maj23.Some? ==>
          r in hv'.prevotes && hv'.prevotes[r].maj23 == hv.prevotes[r].maj23)
    && (forall r :: r in hv.precommits && hv.precommits[r].maj23.Some? ==>
          r in hv'.precommits && hv'.precommits[r].maj23 == hv.precommits[r].maj23)
  }

  lemma ReplacePrevotes(verify: Ed25519, hv: HeightVotes, t: Tally, t': Tally, v: Vote, r: AddResult, known: set<Vote>)
    requires hv.Valid(verify) && hv.Within(known)
    requires t == (if v.round in hv.prevotes then hv.prevotes[v.round]
                   else EmptyTally(hv.height, v.round, Prevote, hv.vals))
    requires TallyStep(verify, t, t', v, r) && t.Valid() && t.Genuine(verify)
    requires Authentic(verify, hv.vals, v) ==> v in known
    ensures var hv' := hv.(prevotes := hv.prevotes[v.round := t']); HeightStep(verify, hv, hv') && hv'.Within(known)
  {
    hide Tally.Valid, Tally.Genuine, Authentic;
    var hv' := hv.(prevotes := hv.prevotes[v.round := t']);
    forall k, i | k in hv'.prevotes && i in hv'.prevotes[k].votes ensures hv'.prevotes[k].votes[i] in known {
      if k == v.round && i !in t.votes { assert r == Added; }
    }
  }

  lemma ReplacePrecommits(verify: Ed25519, hv: HeightVotes, t: Tally, t': Tally, v: Vote, r: AddResult,
          known: set<Vote>)
    requires hv.Valid(verify) && hv.Within(known)
    requires t == (if v.round in hv.precommits then hv.precommits[v.round]
                   else EmptyTally(hv.height, v.round, Precommit, hv.vals))
    requires TallyStep(verify, t, t', v, r) && t.Valid() && t.Genuine(verify)
    requires Authentic(verify, hv.vals, v) ==> v in known
    ensures var hv' := hv.(precommits := hv.precommits[v.round := t']); HeightStep(verify, hv, hv') && hv'.Within(known)
  {
    hide Tally.Valid, Tally.Genuine, Authentic;
    var hv' := hv.(precommits := hv.precommits[v.round := t']);
    forall k, i | k in hv'.precommits && i in hv'.precommits[k].votes ensures hv'.precommits[k].votes[i] in known {
      if k == v.round && i !in t.votes { assert r == Added; }
    }
  }

  /** Adding a vote to the votes of a height keeps every vote set valid and every majority recorded. */
  lemma AddToHeightCorrect(verify: Ed25519, now: int, hv: HeightVotes, v: Vote, known: set<Vote>)
    requires hv.Valid(verify) && hv.Within(known)
    requires Authentic(verify, hv.vals, v) ==> v in known
    ensures var (hv', r) := AddToHeight(verify, now, hv, v);
      HeightStep(verify, hv, hv') && hv'.Within(known)
  {
    hide Tally.Valid, Tally.Genuine, Authentic, HeightVotes.Within, TallyStep, AddVote;
    if v.height == hv.height && v.vtype == Prevote {
      var t := if v.round in hv.prevotes then hv.prevotes[v.round]
        else EmptyTally(hv.height, v.round, Prevote, hv.vals);
      if v.round !in hv.prevotes { EmptyIsGood(verify, hv.height, v.round, Prevote, hv.vals); }
      AddVoteStep(verify, now, t, v);
      var (t', r) := AddVote(verify, now, t, v);
      ReplacePrevotes(verify, hv, t, t', v, r, known);
    } else if v.height == hv.height && v.vtype == Precommit {
      var t := if v.round in hv.precommits then hv.precommits[v.round]
        else EmptyTally(hv.height, v.round, Precommit, hv.vals);
      if v.round !in hv.precommits { EmptyIsGood(verify, hv.height, v.round, Precommit, hv.vals); }
      AddVoteStep(verify, now, t, v);
      var (t', r) := AddVote(verify, now, t, v);
      ReplacePrecommits(verify, hv, t, t', v, r, known);
    }
  }

  lemma EmptyIsGood(verify: Ed25519, height: int, round: int, vtype: VoteType, vals: ValidatorSet)
    requires vals.Valid()
    ensures EmptyTally(height, round, vtype, vals).Valid() && EmptyTally(height, round, vtype, vals).Genuine(verify)
  {
    EmptyTallyValid(height, round, vtype, vals);
  }
}
