/**
 * Runs of many nodes: honest nodes handle any events in any order, faulty validators sign anything,
 * and signatures of honest validators cannot be forged. Safety is proved over every such run.
 */
module Network {
  import opened Types
  import opened VoteSets
  import opened Node
  import opened NodeInvariants
  import opened NodeSafety

  /** What all nodes share. Nodes are named by public key; `honest` are the keys that follow the code. */
  datatype Protocol = Protocol(
    honest: set<Bytes>,
    verifyVote: Ed25519,
    verifyProposal: (Bytes, Proposal, Bytes) -> bool,
    hashHeader: Bytes -> Bytes,
    sign: (Bytes, Message) -> Bytes,
    vals: Schedule)

  function ConfigOf(p: Protocol, key: Bytes): Config {
    Config(Some(key), p.verifyVote, p.verifyProposal, p.hashHeader, m => p.sign(key, m), p.vals)
  }

  /** The honest nodes and every vote signed so far. */
  datatype Net = Net(nodes: map<Bytes, NodeState>, soup: set<Vote>)

  datatype Action =
    | Deliver(key: Bytes, env: Env, event: Event)
    | FaultySign(vote: Vote)

  /** The vote is made in the name of an honest validator. */
  predicate InHonestName(p: Protocol, v: Vote) {
    var vals := p.vals(v.height).validators;
    0 <= v.index < |vals| && vals[v.index].publicKey in p.honest
  }

  ghost predicate Allowed(p: Protocol, n: Net, a: Action) {
    match a
    case Deliver(key, env, event) => key in n.nodes && Unforged(ConfigOf(p, key), n.soup, event)
    case FaultySign(vote) => !InHonestName(p, vote)
  }

  function Perform(p: Protocol, n: Net, a: Action): Net {
    match a
    case Deliver(key, env, event) =>
      if key !in n.nodes then n else
        var s := Handle(ConfigOf(p, key), env, n.nodes[key], event);
        Net(n.nodes[key := s], n.soup + s.sent)
    case FaultySign(vote) => n.(soup := n.soup + {vote})
  }

  ghost predicate Started(p: Protocol, key: Bytes, s: NodeState) {
    exists env, height, lastCommit :: s == Start(ConfigOf(p, key), env, height, lastCommit)
  }

  /** Every honest node has just started, and only their votes exist. */
  ghost predicate Initial(p: Protocol, n: Net) {
    && n.nodes.Keys == p.honest
    && (forall key :: key in n.nodes ==> Started(p, key, n.nodes[key]) && n.nodes[key].sent <= n.soup)
    && (forall v :: v in n.soup ==> exists key :: key in n.nodes && v in n.nodes[key].sent)
  }

  ghost predicate Next(p: Protocol, n: Net, n': Net) {
    exists a :: Allowed(p, n, a) && n' == Perform(p, n, a)
  }

  ghost predicate IsRun(p: Protocol, run: seq<Net>) {
    && run != [] && Initial(p, run[0])
    && forall i :: 0 <= i < |run| - 1 ==> Next(p, run[i], run[i + 1])
  }

  // ----- The invariant of runs -----

  ghost predicate NodesInv(p: Protocol, n: Net) {
    forall key :: key in n.nodes ==> NodeInv(ConfigOf(p, key), n.soup, n.nodes[key]) && n.nodes[key].sent <= n.soup
  }

  /** Votes in the name of honest validators were sent by their nodes. */
  ghost predicate SoupInv(p: Protocol, n: Net) {
    forall v :: v in n.soup && InHonestName(p, v) ==>
      var key := p.vals(v.height).validators[v.index].publicKey;
      key in n.nodes && v in n.nodes[key].sent
  }

  ghost predicate NetInv(p: Protocol, n: Net) {
    NodesInv(p, n) && SoupInv(p, n)
  }

  lemma InitialInv(p: Protocol, n: Net)
    requires GoodSchedule(p.vals) && Initial(p, n)
    ensures NetInv(p, n)
  {
    hide NodeInv, Start, SignerInv;
    forall key | key in n.nodes ensures NodeInv(ConfigOf(p, key), n.soup, n.nodes[key]) {
      var env, height, lastCommit :| n.nodes[key] == Start(ConfigOf(p, key), env, height, lastCommit);
      StartSafe(ConfigOf(p, key), env, n.soup, height, lastCommit);
      assert n.soup + n.nodes[key].sent == n.soup;
    }
    SentIsOwned(p, n);
  }

  /** When all votes were sent by nodes, each honest name stands for its node. */
  lemma SentIsOwned(p: Protocol, n: Net)
    requires NodesInv(p, n)
    requires forall v :: v in n.soup && InHonestName(p, v) ==> exists key :: key in n.nodes && v in n.nodes[key].sent
    ensures SoupInv(p, n)
  {
    hide Quorum, Present, PrecommitsBacked, PrevotesFaithful, AppliedInv, SignerCovers;
    forall v | v in n.soup && InHonestName(p, v)
      ensures var key := p.vals(v.height).validators[v.index].publicKey; key in n.nodes && v in n.nodes[key].sent
    {
      var key :| key in n.nodes && v in n.nodes[key].sent;
      assert OwnVote(ConfigOf(p, key), v);
    }
  }

  lemma DeliverInv(p: Protocol, n: Net, key: Bytes, env: Env, event: Event)
    requires GoodSchedule(p.vals) && NetInv(p, n) && Allowed(p, n, Deliver(key, env, event))
    ensures NetInv(p, Perform(p, n, Deliver(key, env, event)))
    ensures Advances(n.nodes[key], Perform(p, n, Deliver(key, env, event)).nodes[key])
  {
    hide NodeInv, Handle, Unforged, InHonestName;
    var cfg, s := ConfigOf(p, key), n.nodes[key];
    assert n.soup + s.sent == n.soup;
    HandleSafe(cfg, env, n.soup, s, event);
    var n' := Perform(p, n, Deliver(key, env, event));
    forall k | k in n'.nodes ensures NodeInv(ConfigOf(p, k), n'.soup, n'.nodes[k]) && n'.nodes[k].sent <= n'.soup {
      if k != key { NodeInvMonotone(ConfigOf(p, k), n.soup, n'.soup, n.nodes[k]); }
    }
    forall v | v in n'.soup && InHonestName(p, v) ensures exists k :: k in n'.nodes && v in n'.nodes[k].sent {
      if v in n.soup {
        SenderOf(p, n, v);
        var k := p.vals(v.height).validators[v.index].publicKey;
        assert k in n'.nodes && v in n'.nodes[k].sent;
      } else {
        assert key in n'.nodes && v in n'.nodes[key].sent;
      }
    }
    SentIsOwned(p, n');
  }

  lemma SenderOf(p: Protocol, n: Net, v: Vote)
    requires SoupInv(p, n) && v in n.soup && InHonestName(p, v)
    ensures 0 <= v.index < |p.vals(v.height).validators|
    ensures var key := p.vals(v.height).validators[v.index].publicKey; key in n.nodes && v in n.nodes[key].sent
  {}

  lemma FaultySignInv(p: Protocol, n: Net, v: Vote)
    requires GoodSchedule(p.vals) && NetInv(p, n) && !InHonestName(p, v)
    ensures NetInv(p, Perform(p, n, FaultySign(v)))
  {
    hide NodeInv;
    var n' := Perform(p, n, FaultySign(v));
    forall k | k in n'.nodes ensures NodeInv(ConfigOf(p, k), n'.soup, n'.nodes[k]) {
      NodeInvMonotone(ConfigOf(p, k), n.soup, n'.soup, n.nodes[k]);
    }
  }

  /** The invariant holds in every state of every run. */
  lemma {:induction false} RunInv(p: Protocol, run: seq<Net>, i: nat)
    requires GoodSchedule(p.vals) && IsRun(p, run) && i < |run|
    ensures NetInv(p, run[i])
  {
    hide NetInv, Initial, Perform, Allowed;
    if i == 0 {
      InitialInv(p, run[0]);
    } else {
      RunInv(p, run, i - 1);
      assert Next(p, run[i - 1], run[i - 1 + 1]);
      var a :| Allowed(p, run[i - 1], a) && run[i] == Perform(p, run[i - 1], a);
      PerformInv(p, run[i - 1], a);
    }
  }

  lemma PerformInv(p: Protocol, n: Net, a: Action)
    requires GoodSchedule(p.vals) && NetInv(p, n) && Allowed(p, n, a)
    ensures NetInv(p, Perform(p, n, a))
    ensures forall key :: key in n.nodes ==>
      key in Perform(p, n, a).nodes && Advances(n.nodes[key], Perform(p, n, a).nodes[key])
  {
    hide NetInv, Handle, Unforged, InHonestName;
    match a
    case Deliver(key, env, event) => DeliverInv(p, n, key, env, event);
    case FaultySign(v) => FaultySignInv(p, n, v);
  }
}
