/** Safety over all runs: when two blocks can be committed at one height, and what holds of every commit. */
module Agreement {
  import opened Types
  import opened Validators
  import opened VoteSets
  import opened Commits
  import opened Node
  import opened NodeInvariants
  import opened Network
  import opened NodeSafety
  import opened PrevoteRule

  /** The validators of a height that do not follow the code. */
  ghost function Faulty(p: Protocol, height: int): set<int> {
    set i | 0 <= i < |p.vals(height).validators| && p.vals(height).validators[i].publicKey !in p.honest
  }

  /** Faulty validators hold less than a third of the power. */
  ghost predicate FewFaulty(p: Protocol, height: int) {
    3 * PowerOf(p.vals(height).validators, Faulty(p, height)) < p.vals(height).totalPower
  }

  ghost predicate PrevoteQuorum(p: Protocol, n: Net, height: int, round: int, key: Option<Bytes>) {
    Quorum(p.vals, n.soup, Prevote, height, round, key)
  }

  ghost predicate PrecommitQuorum(p: Protocol, n: Net, height: int, round: int, key: Option<Bytes>) {
    Quorum(p.vals, n.soup, Precommit, height, round, key)
  }

  /** A prevote quorum for a value in a round strictly between two rounds. */
  ghost predicate QuorumBetween(p: Protocol, n: Net, height: int, low: int, high: int, key: Option<Bytes>) {
    exists k :: low < k < high && PrevoteQuorum(p, n, height, k, key)
  }

  ghost predicate NilQuorumBetween(p: Protocol, n: Net, height: int, low: int, high: int) {
    QuorumBetween(p, n, height, low, high, None)
  }

  /** Two quorums have an honest validator in common, whose node sent a vote of each. */
  lemma CommonSender(p: Protocol, n: Net, height: int,
                     t1: VoteType, r1: int, key1: Option<Bytes>, t2: VoteType, r2: int, key2: Option<Bytes>)
    returns (key: Bytes, v: Vote, w: Vote)
    requires GoodSchedule(p.vals) && SoupInv(p, n) && FewFaulty(p, height)
    requires Quorum(p.vals, n.soup, t1, height, r1, key1) && Quorum(p.vals, n.soup, t2, height, r2, key2)
    ensures key in n.nodes && v in n.nodes[key].sent && w in n.nodes[key].sent
    ensures IsVoteFor(v, t1, height, r1, key1) && IsVoteFor(w, t2, height, r2, key2)
  {
    hide BlockKey;
    assert p.vals(height).Valid();
    var i := HonestInIntersection(p.vals(height), Backers(n.soup, t1, height, r1, key1),
                                  Backers(n.soup, t2, height, r2, key2), Faulty(p, height));
    v :| v in n.soup && IsVoteFor(v, t1, height, r1, key1) && v.index == i;
    w :| w in n.soup && IsVoteFor(w, t2, height, r2, key2) && w.index == i;
    key := p.vals(height).validators[i].publicKey;
    assert InHonestName(p, v) && InHonestName(p, w);
  }

  /** No two values of one kind have quorums in the same round. */
  lemma OneQuorumPerRound(p: Protocol, n: Net, height: int, vtype: VoteType, round: int, a: Option<Bytes>,
          b: Option<Bytes>)
    requires GoodSchedule(p.vals) && NetInv(p, n) && FewFaulty(p, height)
    requires Quorum(p.vals, n.soup, vtype, height, round, a) && Quorum(p.vals, n.soup, vtype, height, round, b)
    ensures a == b
  {
    hide Quorum, FewFaulty, GoodSchedule, BlockKey, Present, PrecommitsBacked, PrevotesFaithful, AppliedInv, OwnVote,
      SignerCovers;
    var key, v, w := CommonSender(p, n, height, vtype, round, a, vtype, round, b);
    assert SamePlace(v, w) && SignerInv(ConfigOf(p, key), n.nodes[key]);
  }

  /** A precommit quorum for a block comes with a prevote quorum for it in the same round. */
  lemma PrecommitsNeedPrevotes(p: Protocol, n: Net, height: int, round: int, b: Bytes)
    requires GoodSchedule(p.vals) && NetInv(p, n) && FewFaulty(p, height)
    requires PrecommitQuorum(p, n, height, round, Some(b))
    ensures PrevoteQuorum(p, n, height, round, Some(b))
  {
    hide Quorum, FewFaulty, GoodSchedule, BlockKey, Present, PrevotesFaithful, AppliedInv, SignerInv;
    var key, v, w := CommonSender(p, n, height, Precommit, round, Some(b), Precommit, round, Some(b));
    assert PrecommitsBacked(p.vals, n.soup, n.nodes[key].sent);
    assert PrecommitFor(v, v.height, b);
  }

  /**
   * After a precommit quorum for a block, no later round gathers even a prevote quorum for another
   * block unless a nil prevote quorum came strictly between.
   */
  lemma {:induction false} NoLaterPrevotes(p: Protocol, n: Net, height: int, r: int, b: Bytes, r': int, c: Bytes)
    requires GoodSchedule(p.vals) && NetInv(p, n) && FewFaulty(p, height)
    requires PrecommitQuorum(p, n, height, r, Some(b)) && PrevoteQuorum(p, n, height, r', Some(c))
    requires r < r' && b != c
    ensures NilQuorumBetween(p, n, height, r, r')
    decreases r' - r
  {
    hide Quorum, FewFaulty, GoodSchedule, BlockKey, Present, PrecommitsBacked, AppliedInv, SignerInv;
    var key, v, w := CommonSender(p, n, height, Prevote, r', Some(c), Precommit, r, Some(b));
    assert PrevotesFaithful(p.vals, n.soup, n.nodes[key].sent);
    assert PrecommitFor(w, w.height, b) && PrevoteForOther(v, w.height, b);
    assert Overtaken(p.vals, n.soup, height, r, b, r');
    var k, other :| r < k < r' && other != Some(b) && Quorum(p.vals, n.soup, Prevote, height, k, other);
    if other.None? {
      assert PrevoteQuorum(p, n, height, k, None);
    } else {
      NoLaterPrevotes(p, n, height, r, b, k, other.value);
      var j :| r < j < k && PrevoteQuorum(p, n, height, j, None);
    }
  }

  /**
   * Conditional agreement: two blocks with precommit quorums at one height are the same, unless they
   * are from different rounds with a nil prevote quorum strictly between.
   */
  lemma QuorumAgreement(p: Protocol, n: Net, height: int, r: int, b: Bytes, r': int, c: Bytes)
    requires GoodSchedule(p.vals) && NetInv(p, n) && FewFaulty(p, height)
    requires PrecommitQuorum(p, n, height, r, Some(b)) && PrecommitQuorum(p, n, height, r', Some(c))
    requires r <= r' && b != c
    ensures r < r' && NilQuorumBetween(p, n, height, r, r')
  {
    hide Quorum, FewFaulty, GoodSchedule, NetInv;
    if r == r' {
      OneQuorumPerRound(p, n, height, Precommit, r, Some(b), Some(c));
    } else {
      PrecommitsNeedPrevotes(p, n, height, r', c);
      NoLaterPrevotes(p, n, height, r, b, r', c);
    }
  }

  /** In every state of every run, honest nodes that apply different blocks at one height were split by a nil quorum. */
  lemma AppliedAgreement(p: Protocol, run: seq<Net>, i: nat, k1: Bytes, j1: nat, k2: Bytes, j2: nat)
    requires GoodSchedule(p.vals) && IsRun(p, run) && i < |run| && k1 in run[i].nodes && k2 in run[i].nodes
    requires j1 < |run[i].nodes[k1].applied| && j2 < |run[i].nodes[k2].applied|
    requires var a1, a2 := run[i].nodes[k1].applied[j1], run[i].nodes[k2].applied[j2];
      && a1.height == a2.height && FewFaulty(p, a1.height) && a1.commit.round <= a2.commit.round
      && p.hashHeader(a1.block.header) != p.hashHeader(a2.block.header)
    ensures var a1, a2 := run[i].nodes[k1].applied[j1], run[i].nodes[k2].applied[j2];
      a1.commit.round < a2.commit.round
      && NilQuorumBetween(p, run[i], a1.height, a1.commit.round, a2.commit.round)
  {
    hide IsRun, Quorum, FewFaulty, GoodSchedule, Present, PrecommitsBacked, PrevotesFaithful, SignerInv, Certified;
    RunInv(p, run, i);
    var n := run[i];
    var a1, a2 := n.nodes[k1].applied[j1], n.nodes[k2].applied[j2];
    assert AppliedGood(ConfigOf(p, k1), n.soup, a1) && AppliedGood(ConfigOf(p, k2), n.soup, a2);
    QuorumAgreement(p, n, a1.height, a1.commit.round, p.hashHeader(a1.block.header),
                    a2.commit.round, p.hashHeader(a2.block.header));
  }

  /** Every block a node applies is certified at its height, and heights are consecutive from its start. */
  lemma CertifiedFinality(p: Protocol, run: seq<Net>, i: nat, key: Bytes, j: nat)
    requires GoodSchedule(p.vals) && IsRun(p, run) && i < |run| && key in run[i].nodes
    requires j < |run[i].nodes[key].applied|
    ensures var s := run[i].nodes[key]; var a := s.applied[j];
      && a.height == s.start + j && a.commit.round >= 0
      && Certified(p.verifyVote, p.vals(a.height), p.hashHeader(a.block.header), a.height, a.commit)
      && (s.halt == Running ==> s.height == s.start + |s.applied|)
  {
    hide IsRun, Quorum, GoodSchedule, Present, PrecommitsBacked, PrevotesFaithful, SignerInv, Certified;
    RunInv(p, run, i);
    assert AppliedGood(ConfigOf(p, key), run[i].soup, run[i].nodes[key].applied[j]);
  }

  /** The panic for a missing commit is never reached. */
  lemma CommitAlwaysFound(p: Protocol, run: seq<Net>, i: nat, key: Bytes)
    requires GoodSchedule(p.vals) && IsRun(p, run) && i < |run| && key in run[i].nodes
    requires FewFaulty(p, run[i].nodes[key].height)
    ensures run[i].nodes[key].halt != NoCommitFound
  {
    hide IsRun, Quorum, FewFaulty, GoodSchedule, Present, PrecommitsBacked, PrevotesFaithful, AppliedInv, SignerCovers;
    RunInv(p, run, i);
    var n, s := run[i], run[i].nodes[key];
    if s.halt == NoCommitFound {
      var r, b :| r < 0 && Quorum(p.vals, n.soup, Precommit, s.height, r, Some(b));
      var k, v, w := CommonSender(p, n, s.height, Precommit, r, Some(b), Precommit, r, Some(b));
      SentRound(p, n, k, v);
    }
  }

  lemma SentRound(p: Protocol, n: Net, key: Bytes, v: Vote)
    requires NodesInv(p, n) && key in n.nodes && v in n.nodes[key].sent
    ensures v.round >= 0
  {
    hide Quorum, Present, PrecommitsBacked, PrevotesFaithful, AppliedInv, SignerCovers;
    assert OwnVote(ConfigOf(p, key), v);
  }

  /** Honest nodes never sign two different votes of one kind in one round. */
  lemma NoEquivocation(p: Protocol, run: seq<Net>, i: nat, key: Bytes, v: Vote, w: Vote)
    requires GoodSchedule(p.vals) && IsRun(p, run) && i < |run| && key in run[i].nodes
    requires v in run[i].nodes[key].sent && w in run[i].nodes[key].sent && SamePlace(v, w)
    ensures v == w
  {
    hide IsRun, Quorum, GoodSchedule, Present, PrecommitsBacked, PrevotesFaithful, AppliedInv, OwnVote, SignerCovers;
    RunInv(p, run, i);
    assert SignerInv(ConfigOf(p, key), run[i].nodes[key]);
  }

  /**
   * In every state of every run, the lock and the valid block of a running honest node are the
   * recorded prevote majorities of their rounds, and those are quorums of signed prevotes.
   */
  lemma LocksJustified(p: Protocol, run: seq<Net>, i: nat, key: Bytes)
    requires GoodSchedule(p.vals) && IsRun(p, run) && i < |run| && key in run[i].nodes
    requires run[i].nodes[key].halt == Running
    ensures var s := run[i].nodes[key];
      && (s.lockedBlock.Some? ==>
            && 0 <= s.lockedRound <= s.round
            && HasMajority(s, s.lockedRound, Some(p.hashHeader(s.lockedBlock.value.header)))
            && PrevoteQuorum(p, run[i], s.height, s.lockedRound, Some(p.hashHeader(s.lockedBlock.value.header))))
      && (s.validBlock.Some? ==>
            && 0 <= s.validRound <= s.round
            && HasMajority(s, s.validRound, Some(p.hashHeader(s.validBlock.value.header)))
            && PrevoteQuorum(p, run[i], s.height, s.validRound, Some(p.hashHeader(s.validBlock.value.header))))
  {
    hide IsRun, Quorum, GoodSchedule, Past, LockHeld, PrecommitsRecorded, ProposalInv, Tally.Valid, Tally.Genuine;
    RunInv(p, run, i);
    var s := run[i].nodes[key];
    if s.lockedBlock.Some? {
      RecordedMajority(p, run[i], key, s.lockedRound, Some(p.hashHeader(s.lockedBlock.value.header)));
    }
    if s.validBlock.Some? {
      RecordedMajority(p, run[i], key, s.validRound, Some(p.hashHeader(s.validBlock.value.header)));
    }
  }

  lemma RecordedMajority(p: Protocol, n: Net, key: Bytes, round: int, value: Option<Bytes>)
    requires key in n.nodes && Consistent(ConfigOf(p, key), n.soup, n.nodes[key])
    requires HasMajority(n.nodes[key], round, value)
    ensures PrevoteQuorum(p, n, n.nodes[key].height, round, value)
  {
    hide Tally.Valid, Tally.Genuine, Quorum;
    var s := n.nodes[key];
    var t := s.votes.prevotes[round];
    assert s.votes.Holds(p.verifyVote, t, Prevote, round);
    MajorityIsQuorum(p.vals, n.soup, t);
  }

  /**
   * Over every run, a prevote for a block that a locked node signs is for the block it was locked on
   * before the event, or for one with a quorum of signed prevotes in a round strictly between the lock
   * and the vote.
   */
  lemma PrevoteWhileLocked(p: Protocol, run: seq<Net>, i: nat, key: Bytes, v: Vote)
    requires GoodSchedule(p.vals) && IsRun(p, run) && i + 1 < |run| && key in run[i].nodes && key in run[i + 1].nodes
    requires v in run[i + 1].nodes[key].sent && v !in run[i].nodes[key].sent
    requires v.vtype == Prevote && v.height == run[i].nodes[key].height && BlockKey(v.blockHash).Some?
    requires run[i].nodes[key].lockedBlock.Some?
    ensures var s := run[i].nodes[key];
      || v.blockHash == Some(p.hashHeader(s.lockedBlock.value.header))
      || QuorumBetween(p, run[i + 1], s.height, s.lockedRound, v.round, BlockKey(v.blockHash))
  {
    hide IsRun, Quorum, NodeInv, Handle, Unforged, BlockKey;
    RunInv(p, run, i);
    var n, s := run[i], run[i].nodes[key];
    var a := StepOf(p, run, i);
    assert a.Deliver? && a.key == key;
    assert n.soup + s.sent == n.soup;
    HandleObeys(ConfigOf(p, key), a.env, n.soup, s, a.event);
    assert New(s, run[i + 1].nodes[key], v) && BlockPrevote(v, s.height);
    assert Lawful(ConfigOf(p, key), run[i + 1].soup, s, v);
    if v.blockHash != Some(p.hashHeader(s.lockedBlock.value.header)) {
      var k :| s.lockedRound < k < v.round
        && Quorum(p.vals, run[i + 1].soup, Prevote, s.height, k, BlockKey(v.blockHash));
      assert PrevoteQuorum(p, run[i + 1], s.height, k, BlockKey(v.blockHash));
    }
  }

  lemma StepOf(p: Protocol, run: seq<Net>, i: nat) returns (a: Action)
    requires IsRun(p, run) && i + 1 < |run|
    ensures Allowed(p, run[i], a) && run[i + 1] == Perform(p, run[i], a)
  {
    hide Allowed, Perform, Initial;
    assert Next(p, run[i], run[i + 1]);
    a :| Allowed(p, run[i], a) && run[i + 1] == Perform(p, run[i], a);
  }

  /** Height and round of a node never go back along a run, and its records only grow. */
  lemma {:induction false} NodesAdvance(p: Protocol, run: seq<Net>, i: nat, j: nat, key: Bytes)
    requires GoodSchedule(p.vals) && IsRun(p, run) && i <= j < |run| && key in run[i].nodes
    ensures key in run[j].nodes && Advances(run[i].nodes[key], run[j].nodes[key])
    decreases j - i
  {
    hide GoodSchedule, Initial, NetInv, Perform, Allowed;
    if i < j {
      NodesAdvance(p, run, i, j - 1, key);
      RunInv(p, run, j - 1);
      assert Next(p, run[j - 1], run[j - 1 + 1]);
      var a :| Allowed(p, run[j - 1], a) && run[j] == Perform(p, run[j - 1], a);
      PerformInv(p, run[j - 1], a);
    }
  }
}
