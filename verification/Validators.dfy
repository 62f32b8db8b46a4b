/**
 * Validator sets seen as weights: the power of a set of validator indices, the quorum threshold
 * and the intersection of two quorums.
 */
module Validators {
  import opened Types

  const MAX_VALIDATORS := 65535
  const MAX_TOTAL_VOTING_POWER: int := 0x1000_0000_0000_0000

  datatype Validator = Validator(
    name: string,
    index: int,
    publicKey: Bytes,
    votingPower: int,
    proposerPriority: int)

  datatype ValidatorSet = ValidatorSet(
    validators: seq<Validator>,
    proposer: Validator,
    totalPower: int)
  {
    /** The invariant every set built by the constructor keeps. */
    ghost predicate Valid() {
      && 0 < |validators| <= MAX_VALIDATORS
      && (forall i :: 0 <= i < |validators| ==>
            validators[i].index == i && validators[i].votingPower > 0 && validators[i].name != "")
      && (forall i, j :: 0 <= i < j < |validators| ==> validators[i].name != validators[j].name)
      && totalPower == SumPower(validators)
      && totalPower <= MAX_TOTAL_VOTING_POWER
    }

    function GetByIndex(i: int): Option<Validator> {
      if 0 <= i < |validators| then Some(validators[i]) else None
    }

    /** Power needed for a two-thirds majority, computed without doubling the total. */
    function TwoThirdsMajority(): int {
      if totalPower <= 0 then 0 else
        totalPower / 3 + totalPower / 3 + (if totalPower % 3 == 2 then 1 else 0) + 1
    }
  }

  function SumPower(vals: seq<Validator>): int {
    if vals == [] then 0 else SumPower(vals[..|vals| - 1]) + vals[|vals| - 1].votingPower
  }

  /** Total power of the validators whose position is in `who`. */
  function PowerOf(vals: seq<Validator>, who: set<int>): int {
    if vals == [] then 0 else
      var n := |vals| - 1;
      PowerOf(vals[..n], who) + if n in who then vals[n].votingPower else 0
  }

  ghost predicate PositivePower(vals: seq<Validator>) {
    forall i :: 0 <= i < |vals| ==> vals[i].votingPower > 0
  }

  lemma {:induction false} PowerOfAll(vals: seq<Validator>, who: set<int>)
    requires PositivePower(vals)
    requires forall i :: 0 <= i < |vals| ==> i in who
    ensures PowerOf(vals, who) == SumPower(vals)
  {
    if vals != [] { PowerOfAll(vals[..|vals| - 1], who); }
  }

  lemma {:induction false} PowerOfMonotone(vals: seq<Validator>, a: set<int>, b: set<int>)
    requires PositivePower(vals)
    requires forall i :: 0 <= i < |vals| && i in a ==> i in b
    ensures 0 <= PowerOf(vals, a) <= PowerOf(vals, b) <= SumPower(vals)
  {
    if vals != [] { PowerOfMonotone(vals[..|vals| - 1], a, b); }
  }

  lemma {:induction false} PowerOfAdd(vals: seq<Validator>, who: set<int>, i: int)
    requires 0 <= i < |vals| && i !in who
    ensures PowerOf(vals, who + {i}) == PowerOf(vals, who) + vals[i].votingPower
  {
    var n := |vals| - 1;
    if i < n {
      PowerOfAdd(vals[..n], who, i);
    } else {
      PowerOfSame(vals[..n], who, who + {i});
    }
  }

  /** Only positions inside the set matter. */
  lemma {:induction false} PowerOfSame(vals: seq<Validator>, a: set<int>, b: set<int>)
    requires forall i :: 0 <= i < |vals| ==> (i in a <==> i in b)
    ensures PowerOf(vals, a) == PowerOf(vals, b)
  {
    if vals != [] { PowerOfSame(vals[..|vals| - 1], a, b); }
  }

  lemma {:induction false} InclusionExclusion(vals: seq<Validator>, a: set<int>, b: set<int>)
    ensures PowerOf(vals, a) + PowerOf(vals, b) == PowerOf(vals, a + b) + PowerOf(vals, a * b)
  {
    if vals != [] { InclusionExclusion(vals[..|vals| - 1], a, b); }
  }

  lemma {:induction false} PowerOfEmpty(vals: seq<Validator>)
    ensures PowerOf(vals, {}) == 0
  {
    if vals != [] { PowerOfEmpty(vals[..|vals| - 1]); }
  }

  lemma {:induction false} SumPowerPositive(vals: seq<Validator>)
    requires PositivePower(vals)
    ensures SumPower(vals) >= |vals|
  {
    if vals != [] { SumPowerPositive(vals[..|vals| - 1]); }
  }

  /** The threshold is the least integer strictly above two thirds of the total. */
  lemma QuorumIsLeastAboveTwoThirds(vs: ValidatorSet)
    requires vs.Valid()
    ensures 3 * vs.TwoThirdsMajority() > 2 * vs.totalPower
    ensures 3 * (vs.TwoThirdsMajority() - 1) <= 2 * vs.totalPower
    ensures 0 < vs.TwoThirdsMajority() <= vs.totalPower
  {
    SumPowerPositive(vs.validators);
  }

  ghost predicate IsQuorum(vs: ValidatorSet, who: set<int>) {
    PowerOf(vs.validators, who) >= vs.TwoThirdsMajority()
  }

  /** Any two quorums share validators holding more than a third of the power. */
  lemma QuorumIntersection(vs: ValidatorSet, a: set<int>, b: set<int>)
    requires vs.Valid()
    requires IsQuorum(vs, a) && IsQuorum(vs, b)
    ensures 3 * PowerOf(vs.validators, a * b) > vs.totalPower
  {
    QuorumIsLeastAboveTwoThirds(vs);
    InclusionExclusion(vs.validators, a, b);
    PowerOfMonotone(vs.validators, a + b, a + b);
  }

  /** Less than a third of faulty power leaves an honest validator in the intersection. */
  lemma HonestInIntersection(vs: ValidatorSet, a: set<int>, b: set<int>, faulty: set<int>)
    returns (i: int)
    requires vs.Valid()
    requires IsQuorum(vs, a) && IsQuorum(vs, b)
    requires 3 * PowerOf(vs.validators, faulty) < vs.totalPower
    ensures 0 <= i < |vs.validators| && i in a && i in b && i !in faulty
  {
    QuorumIntersection(vs, a, b);
    if forall k :: 0 <= k < |vs.validators| && k in a * b ==> k in faulty {
      PowerOfMonotone(vs.validators, a * b, faulty);
      assert false;
    }
    i :| 0 <= i < |vs.validators| && i in a * b && i !in faulty;
  }

  /** Overlap of two quorums can be exhibited even when nothing is known about faults. */
  lemma DisjointQuorumsImpossible(vs: ValidatorSet, a: set<int>, b: set<int>)
    requires vs.Valid()
    requires forall i :: 0 <= i < |vs.validators| ==> !(i in a && i in b)
    ensures !(IsQuorum(vs, a) && IsQuorum(vs, b))
  {
    if IsQuorum(vs, a) && IsQuorum(vs, b) {
      PowerOfEmpty(vs.validators);
      var i := HonestInIntersection(vs, a, b, {}) by { SumPowerPositive(vs.validators); }
    }
  }
}
