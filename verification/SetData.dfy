/**
 * Validator sets written out and read back. Reading rebuilds the set through the constructor, which
 * starts priorities over when they are all zero, so the rotation is kept for exactly the other sets.
 */
module SetData {
  import opened Types
  import opened Validators
  import opened Rotation
  import opened ValidatorObjects

  datatype ValidatorSetData = ValidatorSetData(validators: seq<Validator>, proposerIndex: int, totalPower: int)

  function ToData(vs: ValidatorSet): ValidatorSetData {
    ValidatorSetData(vs.validators, vs.proposer.index, vs.totalPower)
  }

  function FromData(data: ValidatorSetData): BuildResult {
    match Build(data.validators)
    case Failed(error) => Failed(error)
    case Built(vs) =>
      Built(if 0 <= data.proposerIndex < |vs.validators|
            then vs.(proposer := vs.validators[data.proposerIndex]) else vs)
  }

  ghost predicate EqualPowers(vals: seq<Validator>) {
    forall i, j :: 0 <= i < j < |vals| ==> vals[i].votingPower == vals[j].votingPower
  }

  /** The proposer is the validator of the set that its index names. */
  ghost predicate ProposerInSet(vs: ValidatorSet) {
    0 <= vs.proposer.index < |vs.validators| && vs.validators[vs.proposer.index] == vs.proposer
  }

  /** Starting over leaves all-zero priorities alone exactly when all powers are equal. */
  lemma InitialIsZero(vals: seq<Validator>)
    requires vals != [] && PositivePower(vals) && SumPower(vals) <= MAX_PRIORITY && AllZero(vals)
    ensures InitialPriorities(vals) == vals <==> EqualPowers(vals)
  {
    hide InitialPriorities, SumPower;
    var avg := SumPower(vals) / |vals|;
    forall i | 0 <= i < |vals|
      ensures InitialPriorities(vals)[i] == vals[i].(proposerPriority := vals[i].votingPower - avg)
    {
      InitialPriority(vals, i);
    }
    if InitialPriorities(vals) == vals {
      forall i | 0 <= i < |vals| ensures vals[i].votingPower == avg {
        assert InitialPriorities(vals)[i] == vals[i];
      }
    } else if EqualPowers(vals) {
      EqualSum(vals, vals[0].votingPower);
      SameQuotient(|vals|, vals[0].votingPower);
      assert forall i :: 0 <= i < |vals| ==> InitialPriorities(vals)[i] == vals[i];
    }
  }

  lemma {:induction false} EqualSum(vals: seq<Validator>, power: int)
    requires forall i :: 0 <= i < |vals| ==> vals[i].votingPower == power
    ensures SumPower(vals) == |vals| * power
  {
    if vals != [] { EqualSum(vals[..|vals| - 1], power); }
  }

  lemma SameQuotient(n: int, x: int)
    requires n > 0
    ensures (n * x) / n == x
  {
    var q := (n * x) / n;
    assert n * (x - q) == (n * x) % n;
    if x - q >= 1 { Grows(n, x - q); } else if x - q < 0 { Grows(n, q - x); }
  }

  lemma Grows(n: int, d: int)
    requires n > 0 && d >= 1
    ensures n * d >= n
  {}

  /**
   * A set read back is the set written out, unless all its priorities are zero and its powers differ.
   */
  lemma RoundTrip(vs: ValidatorSet)
    requires vs.Valid() && ProposerInSet(vs)
    ensures FromData(ToData(vs)) == Built(vs) <==> !AllZero(vs.validators) || EqualPowers(vs.validators)
  {
    hide InitialPriorities, SumPower, Best, EqualPowers, Acceptable, FirstFault;
    BuildAgain(vs);
    if AllZero(vs.validators) { InitialIsZero(vs.validators); }
    assert Indexed(vs.validators) == vs.validators;
  }

  lemma BuildAgain(vs: ValidatorSet)
    requires vs.Valid()
    ensures Build(vs.validators).Built?
    ensures var made := Build(vs.validators).made;
      made.validators == Prepared(vs.validators) && made.totalPower == vs.totalPower
  {
    hide Prepared, FirstFault, Best;
    BuildIffAcceptable(vs.validators);
  }

  // ----- A set that rotation reaches and that is not read back -----

  function Weighted(name: string, index: int, power: int, priority: int): Validator {
    Validator(name, index, [], power, priority)
  }

  function Pair(first: int, second: int): seq<Validator> {
    [Weighted("b", 0, 1, first), Weighted("a", 1, 3, second)]
  }

  lemma PairSum(first: int, second: int)
    ensures SumPower(Pair(first, second)) == 4
  {
    assert Pair(first, second)[..1] == [Weighted("b", 0, 1, first)] && Pair(first, second)[..1][..0] == [];
    assert SumPower(Pair(first, second)[..1]) == 1;
  }

  lemma BestOfPair(first: int, second: int)
    ensures Best(Pair(first, second)) == if second >= first then 1 else 0
  {
    assert BestAmong(Pair(first, second), 1) == 0;
    assert LexLess("a", "b") && !LexLess("b", "a");
  }

  lemma RotatePair(first: int, second: int)
    requires -10 <= first <= 10 && -10 <= second <= 10
    ensures RotateOnce(Pair(first, second), 4)
      == if second + 3 >= first + 1 then Pair(first + 1, second - 1) else Pair(first - 3, second + 3)
  {
    var credited := CreditAll(Pair(first, second));
    assert credited == Pair(first + 1, second + 3);
    BestOfPair(first + 1, second + 3);
  }

  lemma PairIsBalanced(first: int, second: int)
    requires -3 <= first <= 3 && first + second == 0
    ensures Balanced(Pair(first, second), 4)
  {
    PairSum(first, second);
    assert Pair(first, second)[..1] == [Weighted("b", 0, 1, first)] && Pair(first, second)[..1][..0] == [];
    assert SumPriority(Pair(first, second)[..1]) == first;
  }

  function PairSet(first: int, second: int): ValidatorSet {
    var vals := Pair(first, second);
    ValidatorSet(vals, vals[Best(vals)], 4)
  }

  lemma PairBuilt()
    ensures Build(Pair(0, 0)) == Built(PairSet(-1, 1))
  {
    hide InitialPriorities, SumPower, BestAmong, FirstFault;
    var vals := Pair(0, 0);
    PairSum(0, 0);
    assert Acceptable(vals);
    BuildIffAcceptable(vals);
    InitialPriority(vals, 0);
    InitialPriority(vals, 1);
    assert Indexed(vals) == vals;
    assert InitialPriorities(vals) == Pair(-1, 1);
  }

  lemma IncrementPair(first: int, second: int)
    requires -1 <= first <= 0 && first + second == 0
    ensures Increment(PairSet(first, second), 1) == PairSet(first + 1, second - 1)
  {
    hide RotateOnce, Balanced, Best, Center;
    PairIsBalanced(first, second);
    IncrementKeepsBalanced(PairSet(first, second), 1);
    RotateTimesUnfold(Pair(first, second), 4, 1);
    LedgerStart(Pair(first, second), 4);
    RotatePair(first, second);
  }

  /**
   * Two validators with power 1 and 3 have zero priorities after one rotation. Read back, the set names
   * another proposer for the next round than the set that was written out.
   */
  lemma RotationNotRestored() returns (made: ValidatorSet, rotated: ValidatorSet, restored: ValidatorSet)
    ensures Build(Pair(0, 0)) == Built(made) && rotated == Increment(made, 1)
    ensures FromData(ToData(rotated)) == Built(restored)
    ensures ProposerForRound(rotated, 1).name == "b" && ProposerForRound(restored, 1).name == "a"
  {
    hide Increment, Build, Best;
    made, rotated, restored := PairSet(-1, 1), PairSet(0, 0), PairSet(-1, 1);
    PairBuilt();
    IncrementPair(-1, 1);
    IncrementPair(0, 0);
    BestOfPair(-1, 1);
    BestOfPair(0, 0);
    BestOfPair(1, -1);
  }
}
