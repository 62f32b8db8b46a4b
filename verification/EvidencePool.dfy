/**
 * The evidence pool as the mutable object of the engine, with its loops over maps and lists. Every
 * method makes a step of the state machine in module Evidence.
 */
module EvidencePool {
  import opened Types
  import opened VoteSets
  import opened Evidence
  import opened Sorting

  class Pool {
    const config: Setup
    var pending: seq<EvidenceItem>
    var committed: set<EvidenceKey>
    var seenVotes: map<VoteKey, Vote>
    var currentHeight: int
    var currentTime: int

    constructor (config: Setup)
      ensures this.config == config && View() == NewPool()
    {
      this.config := config;
      pending, committed, seenVotes, currentHeight, currentTime := [], {}, map[], 0, 0;
    }

    function View(): PoolState
      reads this
    {
      PoolState(pending, committed, seenVotes, currentHeight, currentTime)
    }

    method CheckVote(vote: Vote, now: int) returns (r: CheckResult)
      modifies this`seenVotes
      ensures CheckVoteStep(config, old(View()), View(), vote, now, r)
    {
      hide Pruned, VerifySignature;
      var val := ByName(config.vals.validators, vote.validator);
      if val.None? { return CheckFailed(UnknownVoter); }
      if !VerifySignature(config.verify, val.value.publicKey, vote) { return CheckFailed(BadVoteSignature); }
      var key := KeyOf(vote);
      if key in seenVotes {
        var existing := seenVotes[key];
        if ForSameBlock(existing, vote) { return Nothing; }
        var evidence := DuplicateVote(existing, vote, config.vals.totalPower, val.value.votingPower, now);
        var error := VerifyDuplicateVote(config, evidence);
        return if error.Some? then CheckFailed(BadEvidence(error.value)) else Equivocation(evidence);
      }
      if |seenVotes| >= MAX_SEEN_VOTES { PruneOldestVotes(MAX_SEEN_VOTES / 10); }
      ghost var seen := seenVotes;
      if |seenVotes| >= MAX_SEEN_VOTES {
        r := CheckFailed(VotePoolFull);
      } else {
        seenVotes := seenVotes[key := vote];
        r := Nothing;
      }
      assert TrackStep(old(View()), View(), vote, seen, r);
    }

    method AddEvidence(ev: EvidenceItem) returns (error: Option<PoolError>)
      modifies this`pending
      ensures (View(), error) == Evidence.AddEvidence(config, old(View()), ev)
    {
      hide EvidenceKeyOf;
      if |ev.data| == 0 { return Some(NoData); }
      if |pending| >= MAX_PENDING_EVIDENCE { return Some(PendingFull); }
      var key := EvidenceKeyOf(config, ev);
      if key in committed { return Some(DuplicateEvidence); }
      for i := 0 to |pending|
        invariant forall k :: 0 <= k < i ==> EvidenceKeyOf(config, pending[k]) != key
        invariant pending == old(pending)
      {
        if EvidenceKeyOf(config, pending[i]) == key { return Some(DuplicateEvidence); }
      }
      if IsExpired(config, View(), ev) { return Some(Expired); }
      pending := pending + [ev];
      error := None;
    }

    method MarkCommitted(items: seq<EvidenceItem>)
      modifies this`committed, this`pending
      ensures View() == Evidence.MarkCommitted(config, old(View()), items)
    {
      hide EvidenceKeyOf;
      for i := 0 to |items|
        invariant committed == old(committed) + KeysOf(config, items[..i]) && pending == old(pending)
      {
        assert KeysOf(config, items[..i + 1]) == KeysOf(config, items[..i]) + {EvidenceKeyOf(config, items[i])};
        committed := committed + {EvidenceKeyOf(config, items[i])};
      }
      assert items[..|items|] == items;
      RemovePending(items);
    }

    method RemovePending(items: seq<EvidenceItem>)
      modifies this`pending
      ensures pending == Except(config, old(pending), KeysOf(config, items))
    {
      hide EvidenceKeyOf;
      var removeSet := KeysOf(config, items);
      var remaining := [];
      for i := 0 to |pending|
        invariant remaining == Except(config, pending[..i], removeSet) && pending == old(pending)
      {
        assert pending[..i + 1][..i] == pending[..i];
        if EvidenceKeyOf(config, pending[i]) !in removeSet { remaining := remaining + [pending[i]]; }
      }
      assert pending[..|pending|] == pending;
      pending := remaining;
    }

    method Update(height: int, time: int)
      modifies this
      ensures View() == Evidence.Update(config, old(View()), height, time)
    {
      currentHeight, currentTime := height, time;
      PruneExpired();
    }

    method PruneExpired()
      modifies this`pending, this`committed, this`seenVotes
      ensures View() == Evidence.Update(config, old(View()), currentHeight, currentTime)
    {
      var valid := [];
      ghost var s := View();
      for i := 0 to |pending|
        invariant valid == Unexpired(config, s, pending[..i]) && View() == s
      {
        assert pending[..i + 1][..i] == pending[..i];
        if !IsExpired(config, View(), pending[i]) { valid := valid + [pending[i]]; }
      }
      assert pending[..|pending|] == pending;
      pending := valid;
      committed := set k | k in committed && !(k.height < currentHeight && TooOld(config, currentHeight, k.height));
      seenVotes := map k | k in seenVotes
        && !(seenVotes[k].height < currentHeight && TooOld(config, currentHeight, seenVotes[k].height))
        :: seenVotes[k];
    }

    /** Removes up to `n` votes below the protected height, from the oldest height on. */
    method PruneOldestVotes(n: nat)
      modifies this`seenVotes
      ensures Pruned(old(seenVotes), seenVotes, ProtectedHeight(currentHeight), n)
    {
      hide Pruned, Grouped, OldestFirst, Flatten, Members, Increasing, ProtectedHeight;
      var protect := ProtectedHeight(currentHeight);
      var groups := GroupByHeight(seenVotes, protect);
      var heights := SortedMembers(groups.Keys);
      ghost var order := Flatten(groups, heights);
      ghost var all := seenVotes;
      var removed := RemoveGroups(groups, heights, n);
      assert heights[..|heights|] == heights;
      FlattenOrders(all, protect, groups, heights, |heights|);
      AllHeights(all, protect, groups, heights);
      PrunedBy(all, protect, order, removed, n, heights);
    }

    /** Removes the votes of the groups in order of heights, until `n` are removed. */
    method RemoveGroups(groups: map<int, seq<VoteKey>>, heights: seq<int>, n: nat) returns (removed: nat)
      requires forall h :: h in heights ==> h in groups
      modifies this`seenVotes
      ensures var order := Flatten(groups, heights);
        && removed == (if |order| < n then |order| else n)
        && seenVotes == old(seenVotes) - Members(order[..removed])
    {
      hide Flatten, Members;
      ghost var order := Flatten(groups, heights);
      NoneRemoved(seenVotes, groups, heights, order);
      removed := 0;
      var i := 0;
      while i < |heights| && removed < n
        invariant 0 <= i <= |heights| && removed <= n
        invariant removed < n ==> removed == |Flatten(groups, heights[..i])|
        invariant removed <= |order| && seenVotes == old(seenVotes) - Members(order[..removed])
      {
        FlattenSplit(groups, heights, i);
        assert heights[i] in heights;
        var keys := groups[heights[i]];
        var count := RemoveVotes(keys, n - removed);
        RemovedMore(old(seenVotes), order, removed, keys, count);
        removed := removed + count;
        i := i + 1;
      }
      assert heights[..|heights|] == heights;
    }

    method RemoveVotes(keys: seq<VoteKey>, room: nat) returns (count: nat)
      modifies this`seenVotes
      ensures count == if |keys| < room then |keys| else room
      ensures seenVotes == old(seenVotes) - Members(keys[..count])
    {
      count := 0;
      while count < |keys| && count < room
        invariant count <= |keys| && count <= room && seenVotes == old(seenVotes) - Members(keys[..count])
      {
        assert Members(keys[..count + 1]) == Members(keys[..count]) + {keys[count]};
        seenVotes := seenVotes - {keys[count]};
        count := count + 1;
      }
    }
  }

  lemma NoneRemoved(all: map<VoteKey, Vote>, groups: map<int, seq<VoteKey>>, heights: seq<int>, order: seq<VoteKey>)
    ensures Flatten(groups, heights[..0]) == [] && all == all - Members(order[..0])
  {
    assert all - Members([]) == all;
  }

  lemma RemovedMore(all: map<VoteKey, Vote>, order: seq<VoteKey>, removed: nat, keys: seq<VoteKey>, count: nat)
    requires removed + |keys| <= |order| && order[removed..removed + |keys|] == keys && count <= |keys|
    ensures (all - Members(order[..removed])) - Members(keys[..count]) == all - Members(order[..removed + count])
  {
    assert order[..removed + count] == order[..removed] + keys[..count];
    assert Members(order[..removed + count]) == Members(order[..removed]) + Members(keys[..count]);
  }

  lemma AllHeights(seen: map<VoteKey, Vote>, protect: int, groups: map<int, seq<VoteKey>>, heights: seq<int>)
    requires Grouped(seen, protect, groups, {}) && forall h :: h in heights <==> h in groups
    ensures forall k :: k in seen && seen[k].height < protect ==> seen[k].height in heights
  {}

  function Members(keys: seq<VoteKey>): set<VoteKey> { set k | k in keys }

  function GroupOf(groups: map<int, seq<VoteKey>>, h: int): seq<VoteKey> { if h in groups then groups[h] else [] }

  /** Votes of one height below the protected height, none twice and none in `left`. */
  ghost predicate IsGroup(seen: map<VoteKey, Vote>, protect: int, h: int, keys: seq<VoteKey>, left: set<VoteKey>) {
    && NoneTwice(keys)
    && forall j :: 0 <= j < |keys| ==> keys[j] in seen && keys[j] !in left && seen[keys[j]].height == h < protect
  }

  /** The unprotected votes outside of `left`, listed by height. */
  ghost predicate Grouped(seen: map<VoteKey, Vote>, protect: int, groups: map<int, seq<VoteKey>>, left: set<VoteKey>) {
    && (forall h :: h in groups ==> IsGroup(seen, protect, h, groups[h], left))
    && (forall k :: k in seen && k !in left && seen[k].height < protect ==>
        seen[k].height in groups && k in groups[seen[k].height])
  }

  ghost predicate NoneTwice(keys: seq<VoteKey>) {
    forall i, j :: 0 <= i < j < |keys| ==> keys[i] != keys[j]
  }

  method GroupByHeight(seen: map<VoteKey, Vote>, protect: int) returns (groups: map<int, seq<VoteKey>>)
    ensures Grouped(seen, protect, groups, {})
  {
    groups := map[];
    var left := seen.Keys;
    while left != {}
      invariant left <= seen.Keys && Grouped(seen, protect, groups, left)
    {
      var key := Pick(left);
      left := left - {key};
      var h := seen[key].height;
      if h < protect { groups := groups[h := (if h in groups then groups[h] else []) + [key]]; }
    }
  }

  /** The keys group by group. */
  ghost function Flatten(groups: map<int, seq<VoteKey>>, heights: seq<int>): seq<VoteKey> {
    if heights == [] then [] else Flatten(groups, heights[..|heights| - 1]) + GroupOf(groups, heights[|heights| - 1])
  }

  lemma {:induction false} FlattenPrefix(groups: map<int, seq<VoteKey>>, heights: seq<int>, i: nat)
    requires i <= |heights|
    ensures Flatten(groups, heights[..i]) <= Flatten(groups, heights)
  {
    if i < |heights| {
      FlattenPrefix(groups, heights[..|heights| - 1], i);
      assert heights[..|heights| - 1][..i] == heights[..i];
    } else {
      assert heights[..i] == heights;
    }
  }

  /** The group of a height follows the groups before it. */
  lemma FlattenSplit(groups: map<int, seq<VoteKey>>, heights: seq<int>, i: nat)
    requires i < |heights|
    ensures var before, order := Flatten(groups, heights[..i]), Flatten(groups, heights);
      && Flatten(groups, heights[..i + 1]) == before + GroupOf(groups, heights[i])
      && |before| + |GroupOf(groups, heights[i])| <= |order|
      && order[|before|..|before| + |GroupOf(groups, heights[i])|] == GroupOf(groups, heights[i])
  {
    FlattenPrefix(groups, heights, i + 1);
    assert heights[..i + 1][..i] == heights[..i];
  }

  /** Exactly the unprotected votes of some heights, each once, from the oldest on. */
  ghost predicate OldestFirst(seen: map<VoteKey, Vote>, protect: int, order: seq<VoteKey>, heights: seq<int>) {
    && (forall i :: 0 <= i < |order| ==>
        order[i] in seen && seen[order[i]].height in heights && seen[order[i]].height < protect)
    && (forall k :: k in seen && seen[k].height in heights && seen[k].height < protect ==> k in order)
    && (forall i, j :: 0 <= i < j < |order| ==> order[i] != order[j] && seen[order[i]].height <= seen[order[j]].height)
  }

  lemma {:induction false} FlattenOrders(seen: map<VoteKey, Vote>, protect: int, groups: map<int, seq<VoteKey>>,
          heights: seq<int>, m: nat)
    requires Grouped(seen, protect, groups, {}) && Increasing(heights, Identity) && m <= |heights|
    requires forall h :: h in heights <==> h in groups
    ensures OldestFirst(seen, protect, Flatten(groups, heights[..m]), heights[..m])
  {
    hide OldestFirst, Flatten, IsGroup;
    if m == 0 {
      NothingFirst(seen, protect, groups, heights);
    } else {
      var h, lower := heights[m - 1], heights[..m - 1];
      FlattenOrders(seen, protect, groups, heights, m - 1);
      FlattenSplit(groups, heights, m - 1);
      assert forall i :: 0 <= i < m - 1 ==> Identity(heights[i]) < Identity(h);
      assert h in heights && heights[..m] == lower + [h];
      OneMoreGroup(seen, protect, Flatten(groups, lower), lower, groups[h], h);
    }
  }

  lemma NothingFirst(seen: map<VoteKey, Vote>, protect: int, groups: map<int, seq<VoteKey>>, heights: seq<int>)
    ensures OldestFirst(seen, protect, Flatten(groups, heights[..0]), heights[..0])
  {}

  lemma OneMoreGroup(seen: map<VoteKey, Vote>, protect: int, order: seq<VoteKey>, heights: seq<int>,
          keys: seq<VoteKey>, h: int)
    requires OldestFirst(seen, protect, order, heights) && IsGroup(seen, protect, h, keys, {})
    requires forall x :: x in heights ==> x < h
    requires forall k :: k in seen && seen[k].height == h && h < protect ==> k in keys
    ensures OldestFirst(seen, protect, order + keys, heights + [h])
  {
    var all := order + keys;
    forall i, j | 0 <= i < j < |all| ensures all[i] != all[j] && seen[all[i]].height <= seen[all[j]].height {
      if i < |order| <= j {
        assert seen[order[i]].height in heights;
      }
    }
  }

  lemma {:induction false} RemovedCount(all: set<VoteKey>, keys: seq<VoteKey>)
    requires NoneTwice(keys) && forall k :: k in keys ==> k in all
    ensures |all - Members(keys)| == |all| - |keys|
  {
    if keys != [] {
      var n := |keys| - 1;
      RemovedCount(all, keys[..n]);
      assert keys[n] !in keys[..n] && Members(keys) == Members(keys[..n]) + {keys[n]};
      assert all - Members(keys) == (all - Members(keys[..n])) - {keys[n]};
    }
  }

  lemma GoneFacts(seen: map<VoteKey, Vote>, protect: int, order: seq<VoteKey>, removed: nat, heights: seq<int>)
    requires OldestFirst(seen, protect, order, heights) && removed <= |order|
    ensures NoneTwice(order[..removed])
    ensures forall k :: k in order[..removed] ==> k in seen && seen[k].height < protect
    ensures forall r, k :: r in order[..removed] && k in order && k !in order[..removed] ==>
      seen[r].height <= seen[k].height
  {
    var gone := order[..removed];
    forall r, k | r in gone && k in order && k !in gone ensures seen[r].height <= seen[k].height {
      var i :| 0 <= i < removed && order[i] == r;
      assert order == gone + order[removed..];
      var j :| removed <= j < |order| && order[j] == k;
    }
  }

  lemma Unprotected(seen: map<VoteKey, Vote>, protect: int, order: seq<VoteKey>, heights: seq<int>)
    requires OldestFirst(seen, protect, order, heights)
    requires forall k :: k in seen && seen[k].height < protect ==> seen[k].height in heights
    ensures forall k :: k in seen && seen[k].height < protect ==> k in order
  {}

  /** Removing a prefix of the votes from the oldest on is the pruning that is asked for. */
  lemma PrunedBy(seen: map<VoteKey, Vote>, protect: int, order: seq<VoteKey>, removed: nat, n: nat, heights: seq<int>)
    requires OldestFirst(seen, protect, order, heights) && removed <= |order| && removed <= n
    requires removed == n || removed == |order|
    requires forall k :: k in seen && seen[k].height < protect ==> seen[k].height in heights
    ensures Pruned(seen, seen - Members(order[..removed]), protect, n)
  {
    hide OldestFirst, NoneTwice;
    GoneFacts(seen, protect, order, removed, heights);
    Unprotected(seen, protect, order, heights);
    RemovedCount(seen.Keys, order[..removed]);
    var after := seen - Members(order[..removed]);
    assert after.Keys == seen.Keys - Members(order[..removed]);
    if removed == |order| { assert order[..removed] == order; }
  }
}
