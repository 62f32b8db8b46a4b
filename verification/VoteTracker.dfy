/**
 * Vote sets as the mutable objects of the engine: a vote set per round and kind of vote, and the
 * collection of one height that creates them on demand and leaves them behind when it is reset.
 */
module VoteTracker {
  import opened Types
  import opened Validators
  import opened VoteSets
  import opened Commits
  import opened Node
  import opened Sorting

  /** Generations are counted in 64 bits. */
  const GENERATIONS := 0x1_0000_0000_0000_0000

  class VoteSet {
    const height: int
    const round: int
    const vtype: VoteType
    const vals: ValidatorSet
    var votes: map<int, Vote>
    var byBlock: map<Option<Bytes>, BlockVotes>
    var sum: int
    var maj23: Option<Option<Bytes>>
    const parent: HeightVoteSet?
    const myGeneration: int

    constructor Standalone(height: int, round: int, vtype: VoteType, vals: ValidatorSet)
      ensures View() == EmptyTally(height, round, vtype, vals) && Live()
    {
      this.height, this.round, this.vtype, this.vals := height, round, vtype, vals;
      votes, byBlock, sum, maj23 := map[], map[], 0, None;
      parent, myGeneration := null, 0;
    }

    constructor WithParent(hvs: HeightVoteSet, round: int, vtype: VoteType)
      ensures View() == EmptyTally(hvs.height, round, vtype, hvs.vals)
      ensures parent == hvs && myGeneration == hvs.generation
      ensures height == hvs.height && vals == hvs.vals && this.round == round && this.vtype == vtype
    {
      this.height, this.round, this.vtype, this.vals := hvs.height, round, vtype, hvs.vals;
      votes, byBlock, sum, maj23 := map[], map[], 0, None;
      parent, myGeneration := hvs, hvs.generation;
    }

    function View(): Tally
      reads this
    {
      Tally(height, round, vtype, vals, votes, byBlock, sum, maj23)
    }

    /** The collection the set belongs to has not been reset since the set was made. */
    predicate Live()
      reads parent
    {
      parent != null ==> parent.generation == myGeneration
    }

    /** A stale set refuses every vote; a live one counts it as AddVote on its value does. */
    method AddVote(verify: Ed25519, now: int, v: Vote) returns (r: AddResult)
      modifies this
      ensures !Live() ==> View() == old(View()) && r == Rejected(StaleVoteSet)
      ensures Live() ==> (View(), r) == VoteSets.AddVote(verify, now, old(View()), v)
    {
      if parent != null && parent.generation != myGeneration { return Rejected(StaleVoteSet); }
      if v.height != height || v.round != round || v.vtype != vtype { return Rejected(InvalidVote); }
      if v.timestamp > now + MAX_TIMESTAMP_DRIFT { return Rejected(InvalidVote); }
      if v.timestamp < now - MAX_TIMESTAMP_DRIFT { return Rejected(InvalidVote); }
      r := AddVoteInternal(verify, v);
    }

    method AddVoteInternal(verify: Ed25519, v: Vote) returns (r: AddResult)
      modifies this
      ensures (View(), r) == VoteSets.AddVoteInternal(verify, old(View()), v)
    {
      var val := vals.GetByIndex(v.index);
      if val.None? || val.value.name != v.validator { return Rejected(UnknownValidator); }
      if !VerifySignature(verify, val.value.publicKey, v) { return Rejected(InvalidSignature); }
      if v.index in votes {
        return if VotesEqual(votes[v.index], v) then Duplicate else Rejected(ConflictingVote);
      }
      var power := val.value.votingPower;
      if power > 0 && sum > MAX_INT64 - power { return Rejected(SumOverflow); }
      var key := BlockKey(v.blockHash);
      var isNew := key !in byBlock;
      var bv := if isNew then NO_BLOCK_VOTES else byBlock[key];
      if power > 0 && bv.totalPower > MAX_INT64 - power { return Rejected(BlockPowerOverflow); }
      votes := votes[v.index := v];
      sum := sum + power;
      if isNew { bv := bv.(blockHash := v.blockHash); }
      bv := bv.(votes := bv.votes + [v], totalPower := bv.totalPower + power);
      byBlock := byBlock[key := bv];
      if bv.totalPower >= vals.TwoThirdsMajority() && maj23.None? { maj23 := Some(key); }
      r := Added;
    }

    /** All votes in order of validator index, in whatever order the map yields them. */
    method GetVotes() returns (r: seq<Vote>)
      requires View().Indexed()
      ensures r == SortedVotes(View(), |vals.validators|)
    {
      var keys, found := votes.Keys, [];
      while keys != {}
        invariant keys <= votes.Keys && DistinctKeys(found, VoteIndex)
        invariant forall v :: v in found <==> v.index in votes && v.index !in keys && votes[v.index] == v
      {
        var i := Pick(keys);
        keys := keys - {i};
        found := found + [votes[i]];
      }
      r := SortBy(found, VoteIndex);
      SortedVotesListed(View(), |vals.validators|);
      SortedCollection(found, SortedVotes(View(), |vals.validators|), VoteIndex);
    }

    /** The commit the majority makes, in whatever order the map yields its votes. */
    method MakeCommit() returns (r: Option<Commit>)
      requires View().Indexed()
      ensures r == Commits.MakeCommit(View())
    {
      if vtype != Precommit || maj23.None? { return None; }
      if maj23.value.None? { return None; }
      var block := maj23.value.value;
      var keys, sigs := votes.Keys, [];
      while keys != {}
        invariant keys <= votes.Keys && DistinctKeys(sigs, SigIndex)
        invariant forall sig :: sig in sigs <==> sig.index !in keys && IsSigFor(View(), block, sig)
      {
        var i := Pick(keys);
        keys := keys - {i};
        if BlockKey(votes[i].blockHash) == Some(block) { sigs := sigs + [SigOf(votes[i])]; }
      }
      CommitSigsListed(View(), block, |vals.validators|);
      SortedCollection(sigs, CommitSigs(View(), block, |vals.validators|), SigIndex);
      r := Some(Commit(height, round, block, SortBy(sigs, SigIndex)));
    }
  }

  class HeightVoteSet {
    var height: int
    var vals: ValidatorSet
    var prevotes: map<int, VoteSet>
    var precommits: map<int, VoteSet>
    var generation: int
    ghost var sets: set<VoteSet>

    constructor (height: int, vals: ValidatorSet)
      ensures Valid() && View() == NoVotes(height, vals) && sets == {}
    {
      this.height, this.vals := height, vals;
      prevotes, precommits, generation, sets := map[], map[], 0, {};
    }

    /** A set made by this collection since its last reset, for one kind of vote and one round. */
    ghost predicate Owns(vs: VoteSet, vtype: VoteType, round: int)
      reads this
    {
      && vs in sets && vs.parent == this && vs.myGeneration == generation
      && vs.height == height && vs.vals == vals && vs.vtype == vtype && vs.round == round
    }

    /** The set of a round. */
    ghost predicate Keeps(vs: VoteSet, vtype: VoteType, round: int)
      reads this
    {
      if vtype == Prevote then round in prevotes && prevotes[round] == vs
      else vtype == Precommit && round in precommits && precommits[round] == vs
    }

    ghost predicate Valid()
      reads this
    {
      && 0 <= generation < GENERATIONS
      && (forall r :: r in prevotes ==> Owns(prevotes[r], Prevote, r))
      && (forall r :: r in precommits ==> Owns(precommits[r], Precommit, r))
    }

    ghost function View(): (hv: HeightVotes)
      requires Valid()
      reads this, sets
      ensures hv.height == height && hv.vals == vals
      ensures hv.prevotes.Keys == prevotes.Keys && hv.precommits.Keys == precommits.Keys
    {
      HeightVotes(height, vals, map r | r in prevotes :: prevotes[r].View(),
                  map r | r in precommits :: precommits[r].View())
    }

    /** Sets once handed out for a round stay the sets of that round. */
    twostate predicate KeepsSets()
      reads this
    {
      && (forall r :: r in old(prevotes) ==> r in prevotes && prevotes[r] == old(prevotes[r]))
      && (forall r :: r in old(precommits) ==> r in precommits && precommits[r] == old(precommits[r]))
    }

    method PlacePrevotes(vs: VoteSet)
      requires Valid() && vs.parent == this && vs.myGeneration == generation && vs.height == height && vs.vals == vals
      requires vs.vtype == Prevote && vs.round !in prevotes
      modifies this`prevotes, this`sets
      ensures Valid() && KeepsSets() && sets == old(sets) + {vs} && Keeps(vs, Prevote, vs.round)
      ensures View() == WithSet(old(View()), Prevote, vs.round, vs.View())
    {
      hide VoteSet.View;
      ghost var before := View();
      prevotes, sets := prevotes[vs.round := vs], sets + {vs};
      ghost var after := View();
      forall k | k in before.prevotes ensures after.prevotes[k] == before.prevotes[k] {}
      forall k | k in before.precommits ensures after.precommits[k] == before.precommits[k] {}
      IsWithSet(before, after, Prevote, vs.round, vs.View());
    }

    method PlacePrecommits(vs: VoteSet)
      requires Valid() && vs.parent == this && vs.myGeneration == generation && vs.height == height && vs.vals == vals
      requires vs.vtype == Precommit && vs.round !in precommits
      modifies this`precommits, this`sets
      ensures Valid() && KeepsSets() && sets == old(sets) + {vs} && Keeps(vs, Precommit, vs.round)
      ensures View() == WithSet(old(View()), Precommit, vs.round, vs.View())
    {
      hide VoteSet.View;
      ghost var before := View();
      precommits, sets := precommits[vs.round := vs], sets + {vs};
      ghost var after := View();
      forall k | k in before.prevotes ensures after.prevotes[k] == before.prevotes[k] {}
      forall k | k in before.precommits ensures after.precommits[k] == before.precommits[k] {}
      IsWithSet(before, after, Precommit, vs.round, vs.View());
    }

    /** A new set for a round that has none. */
    method NewSet(vtype: VoteType, round: int) returns (vs: VoteSet)
      requires Valid() && (vtype == Prevote || vtype == Precommit)
      requires round !in if vtype == Prevote then prevotes else precommits
      modifies this`prevotes, this`precommits, this`sets
      ensures Valid() && KeepsSets() && fresh(vs) && sets == old(sets) + {vs} && Keeps(vs, vtype, round)
      ensures vs.View() == EmptyTally(height, round, vtype, vals)
      ensures View() == WithSet(old(View()), vtype, round, vs.View())
    {
      hide VoteSet.View, EmptyTally;
      ghost var before := View();
      vs := new VoteSet.WithParent(this, round, vtype);
      assert View() == before;
      if vtype == Prevote { PlacePrevotes(vs); } else { PlacePrecommits(vs); }
    }

    /** The set of a round, made on demand. */
    method SetFor(vtype: VoteType, round: int) returns (vs: VoteSet)
      requires Valid() && (vtype == Prevote || vtype == Precommit)
      modifies this`prevotes, this`precommits, this`sets
      ensures Valid() && KeepsSets() && fresh(sets - old(sets)) && Keeps(vs, vtype, round)
      ensures (vs in old(sets) || fresh(vs)) && vs.View() == old(View()).SetOf(vtype, round)
      ensures View() == WithSet(old(View()), vtype, round, vs.View())
    {
      hide VoteSet.View, EmptyTally;
      if vtype == Prevote && round in prevotes {
        vs := prevotes[round];
        IsWithSet(View(), View(), vtype, round, vs.View());
      } else if vtype == Precommit && round in precommits {
        vs := precommits[round];
        IsWithSet(View(), View(), vtype, round, vs.View());
      } else {
        vs := NewSet(vtype, round);
      }
    }

    method AddTo(vs: VoteSet, verify: Ed25519, now: int, v: Vote) returns (r: AddResult)
      requires Valid() && Keeps(vs, v.vtype, v.round)
      modifies vs
      ensures Valid() && View() == WithSet(old(View()), v.vtype, v.round, vs.View())
      ensures (vs.View(), r) == VoteSets.AddVote(verify, now, old(vs.View()), v)
    {
      hide VoteSets.AddVote, VoteSet.View;
      ghost var before := View();
      r := vs.AddVote(verify, now, v);
      ghost var after := View();
      forall k | k in before.prevotes && !(v.vtype == Prevote && k == v.round)
        ensures after.prevotes[k] == before.prevotes[k] {
        assert prevotes[k] != vs;
      }
      forall k | k in before.precommits && !(v.vtype == Precommit && k == v.round)
        ensures after.precommits[k] == before.precommits[k] {
        assert precommits[k] != vs;
      }
      IsWithSet(before, after, v.vtype, v.round, vs.View());
    }

    method AddVote(verify: Ed25519, now: int, v: Vote) returns (r: AddResult)
      requires Valid()
      modifies this`prevotes, this`precommits, this`sets, sets
      ensures Valid() && KeepsSets() && fresh(sets - old(sets))
      ensures (View(), r) == AddToHeight(verify, now, old(View()), v)
    {
      hide VoteSets.AddVote, HeightVotes.SetOf, VoteSet.View, HeightVoteSet.View, Owns;
      if v.height != height {
        r := Rejected(InvalidHeight);
      } else if v.vtype != Prevote && v.vtype != Precommit {
        r := Rejected(InvalidVote);
      } else {
        var voteSet := SetFor(v.vtype, v.round);
        ghost var made := voteSet.View();
        r := AddTo(voteSet, verify, now, v);
        SetTwice(old(View()), v.vtype, v.round, made, voteSet.View());
      }
    }

    method Prevotes(round: int) returns (vs: VoteSet?)
      requires Valid()
      ensures vs == null <==> View().Prevotes(round).None?
      ensures vs != null ==> Keeps(vs, Prevote, round) && View().Prevotes(round) == Some(vs.View())
    {
      vs := if round in prevotes then prevotes[round] else null;
    }

    method Precommits(round: int) returns (vs: VoteSet?)
      requires Valid()
      ensures vs == null <==> View().Precommits(round).None?
      ensures vs != null ==> Keeps(vs, Precommit, round) && View().Precommits(round) == Some(vs.View())
    {
      vs := if round in precommits then precommits[round] else null;
    }

    /** Every set handed out before is stale afterwards. */
    method Reset(height: int, vals: ValidatorSet)
      requires Valid()
      modifies this
      ensures Valid() && View() == NoVotes(height, vals) && sets == {}
      ensures generation == (old(generation) + 1) % GENERATIONS
      ensures forall vs: VoteSet :: old(allocated(vs)) && vs.parent == this && old(vs.Live()) ==> !vs.Live()
    {
      this.height, this.vals := height, vals;
      prevotes, precommits, sets := map[], map[], {};
      generation := (generation + 1) % GENERATIONS;
    }
  }

  // ----- Lists of votes and signatures in order of validator -----

  function VoteIndex(v: Vote): int { v.index }

  function SigIndex(sig: CommitSig): int { sig.index }

  ghost predicate IsSigFor(t: Tally, block: Bytes, sig: CommitSig) {
    sig.index in t.votes && BlockKey(t.votes[sig.index].blockHash) == Some(block) && SigOf(t.votes[sig.index]) == sig
  }

  lemma {:induction false} SortedVotesListed(t: Tally, n: nat)
    requires t.Indexed()
    ensures Increasing(SortedVotes(t, n), VoteIndex)
    ensures forall v :: v in SortedVotes(t, n) <==> 0 <= v.index < n && v.index in t.votes && t.votes[v.index] == v
  {
    if n > 0 { SortedVotesListed(t, n - 1); }
  }

  lemma {:induction false} CommitSigsListed(t: Tally, block: Bytes, n: nat)
    requires t.Indexed()
    ensures Increasing(CommitSigs(t, block, n), SigIndex)
    ensures forall sig :: sig in CommitSigs(t, block, n) <==> 0 <= sig.index < n && IsSigFor(t, block, sig)
  {
    if n > 0 { CommitSigsListed(t, block, n - 1); }
  }

  /** The votes of a height with the set of one round replaced. */
  ghost function WithSet(hv: HeightVotes, vtype: VoteType, round: int, t: Tally): HeightVotes {
    if vtype == Prevote then hv.(prevotes := hv.prevotes[round := t]) else hv.(precommits := hv.precommits[round := t])
  }

  lemma SetTwice(hv: HeightVotes, vtype: VoteType, round: int, t: Tally, t': Tally)
    ensures WithSet(WithSet(hv, vtype, round, t), vtype, round, t') == WithSet(hv, vtype, round, t')
  {
    assert hv.prevotes[round := t][round := t'] == hv.prevotes[round := t'];
    assert hv.precommits[round := t][round := t'] == hv.precommits[round := t'];
  }

  lemma IsWithSet(hv: HeightVotes, hv': HeightVotes, vtype: VoteType, round: int, t: Tally)
    requires hv'.height == hv.height && hv'.vals == hv.vals && (vtype == Prevote || vtype == Precommit)
    requires Replaced(hv.prevotes, hv'.prevotes, vtype == Prevote, round, t)
    requires Replaced(hv.precommits, hv'.precommits, vtype == Precommit, round, t)
    ensures hv' == WithSet(hv, vtype, round, t)
  {
    hide Replaced;
    ReplacedMap(hv.prevotes, hv'.prevotes, vtype == Prevote, round, t);
    ReplacedMap(hv.precommits, hv'.precommits, vtype == Precommit, round, t);
  }

  ghost predicate Replaced(m: map<int, Tally>, m': map<int, Tally>, here: bool, round: int, t: Tally) {
    && (forall k :: k in m' <==> k in m || (here && k == round))
    && (forall k :: k in m && (!here || k != round) ==> m'[k] == m[k])
    && (here ==> m'[round] == t)
  }

  lemma ReplacedMap(m: map<int, Tally>, m': map<int, Tally>, here: bool, round: int, t: Tally)
    requires Replaced(m, m', here, round, t)
    ensures m' == if here then m[round := t] else m
  {
    var n := if here then m[round := t] else m;
    forall k | k in n ensures k in m' && m'[k] == n[k] {}
    forall k | k in m' ensures k in n {}
  }

  lemma NextGeneration(g: int, k: nat)
    ensures ((g + k) % GENERATIONS + 1) % GENERATIONS == (g + k + 1) % GENERATIONS
  {}

  lemma SameGeneration(g: int, k: nat)
    requires 0 <= g < GENERATIONS
    ensures (g + k) % GENERATIONS == g <==> k % GENERATIONS == 0
  {}

  /**
   * A collection reset over and over. A set handed out before is live again exactly when the number of
   * resets is a multiple of 2^64.
   */
  method ResetAll(hvs: HeightVoteSet, heights: seq<(int, ValidatorSet)>, ghost vs: VoteSet)
    requires hvs.Valid() && vs.parent == hvs && vs.Live()
    modifies hvs
    ensures hvs.Valid()
    ensures vs.Live() <==> |heights| % GENERATIONS == 0
    ensures heights != [] ==> hvs.View() == NoVotes(heights[|heights| - 1].0, heights[|heights| - 1].1)
  {
    for i := 0 to |heights|
      invariant hvs.Valid() && hvs.generation == (old(hvs.generation) + i) % GENERATIONS
      invariant i > 0 ==> hvs.View() == NoVotes(heights[i - 1].0, heights[i - 1].1)
    {
      NextGeneration(old(hvs.generation), i);
      hvs.Reset(heights[i].0, heights[i].1);
    }
    SameGeneration(old(hvs.generation), |heights|);
  }
}
