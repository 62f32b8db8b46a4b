/**
 * Validator sets as the mutable objects of the engine: construction with all its checks, and proposer
 * rotation done in place on the validators, proved against the functions of module Rotation.
 */
module ValidatorObjects {
  import opened Types
  import opened Validators
  import opened Rotation

  datatype SetError =
    | EmptySet | TooManyValidators | EmptyName | InvalidPower | DuplicateValidator | TotalPowerOverflow

  datatype BuildResult = Built(made: ValidatorSet) | Failed(error: SetError)

  // ----- What the constructor accepts and makes -----

  predicate NameTaken(vals: seq<Validator>, k: nat)
    requires k < |vals|
  {
    exists j :: 0 <= j < k && vals[j].name == vals[k].name
  }

  /** The fault of validator `k`, checked in this order. */
  function FaultAt(vals: seq<Validator>, k: nat): Option<SetError>
    requires k < |vals|
  {
    if vals[k].name == "" then Some(EmptyName)
    else if vals[k].votingPower <= 0 then Some(InvalidPower)
    else if NameTaken(vals, k) then Some(DuplicateValidator)
    else if SumPower(vals[..k]) > MAX_TOTAL_VOTING_POWER - vals[k].votingPower then Some(TotalPowerOverflow)
    else None
  }

  /** The fault that stops a left-to-right check of the first `k` validators. */
  function FirstFault(vals: seq<Validator>, k: nat): Option<SetError>
    requires k <= |vals|
  {
    if k == 0 then None
    else if FirstFault(vals, k - 1).Some? then FirstFault(vals, k - 1)
    else FaultAt(vals, k - 1)
  }

  function Indexed(vals: seq<Validator>): seq<Validator> {
    seq(|vals|, i requires 0 <= i < |vals| => vals[i].(index := i))
  }

  predicate AllZero(vals: seq<Validator>) {
    forall i :: 0 <= i < |vals| ==> vals[i].proposerPriority == 0
  }

  function Prepared(vals: seq<Validator>): (r: seq<Validator>)
    requires vals != []
    ensures |r| == |vals|
  {
    if AllZero(vals) then InitialPriorities(Indexed(vals)) else Indexed(vals)
  }

  function Build(vals: seq<Validator>): BuildResult {
    if vals == [] then Failed(EmptySet)
    else if |vals| > MAX_VALIDATORS then Failed(TooManyValidators)
    else if FirstFault(vals, |vals|).Some? then Failed(FirstFault(vals, |vals|).value)
    else
      var prepared := Prepared(vals);
      Built(ValidatorSet(prepared, prepared[Best(prepared)], SumPower(vals)))
  }

  /** What the constructor demands of a list of validators. */
  ghost predicate Acceptable(vals: seq<Validator>) {
    && 0 < |vals| <= MAX_VALIDATORS
    && (forall i :: 0 <= i < |vals| ==> vals[i].name != "" && vals[i].votingPower > 0)
    && DistinctNames(vals)
    && SumPower(vals) <= MAX_TOTAL_VOTING_POWER
  }

  lemma {:induction false} NoFault(vals: seq<Validator>, k: nat)
    requires k <= |vals|
    ensures FirstFault(vals, k).None? <==>
      && (forall i :: 0 <= i < k ==> vals[i].name != "" && vals[i].votingPower > 0)
      && DistinctNames(vals[..k])
      && SumPower(vals[..k]) <= MAX_TOTAL_VOTING_POWER
  {
    if k > 0 {
      NoFault(vals, k - 1);
      assert vals[..k][..k - 1] == vals[..k - 1];
      assert SumPower(vals[..k]) == SumPower(vals[..k - 1]) + vals[k - 1].votingPower;
      if FirstFault(vals, k).None? { DistinctMore(vals, k); } else { DistinctLess(vals, k); }
    }
  }

  lemma DistinctMore(vals: seq<Validator>, k: nat)
    requires 0 < k <= |vals| && DistinctNames(vals[..k - 1]) && !NameTaken(vals, k - 1)
    ensures DistinctNames(vals[..k])
  {
    forall i, j | 0 <= i < j < k ensures vals[..k][i].name != vals[..k][j].name {
      if j < k - 1 { assert vals[..k - 1][i].name != vals[..k - 1][j].name; }
    }
  }

  lemma DistinctLess(vals: seq<Validator>, k: nat)
    requires 0 < k <= |vals|
    ensures DistinctNames(vals[..k]) ==> DistinctNames(vals[..k - 1]) && !NameTaken(vals, k - 1)
  {
    if DistinctNames(vals[..k]) {
      var shorter := vals[..k - 1];
      forall i, j | 0 <= i < j < k - 1 ensures shorter[i].name != shorter[j].name {
        assert vals[..k][i].name != vals[..k][j].name;
      }
      forall j | 0 <= j < k - 1 ensures vals[j].name != vals[k - 1].name {
        assert vals[..k][j].name != vals[..k][k - 1].name;
      }
    }
  }

  /** Exactly the acceptable lists give a set; the set is valid and keeps names, keys and powers. */
  lemma BuildIffAcceptable(vals: seq<Validator>)
    ensures Build(vals).Built? <==> Acceptable(vals)
    ensures Build(vals).Built? ==>
      Build(vals).made.Valid() && SameValidators(Indexed(vals), Build(vals).made.validators)
  {
    hide Prepared;
    NoFault(vals, |vals|);
    assert vals[..|vals|] == vals;
    if Build(vals).Built? { PreparedSame(vals); BuiltValid(vals, Prepared(vals)); }
  }

  lemma PreparedSame(vals: seq<Validator>)
    requires vals != []
    ensures SameValidators(Indexed(vals), Prepared(vals))
  {}

  lemma BuiltValid(vals: seq<Validator>, prepared: seq<Validator>)
    requires Acceptable(vals) && SameValidators(Indexed(vals), prepared)
    ensures forall proposer :: ValidatorSet(prepared, proposer, SumPower(vals)).Valid()
  {
    SamePowerSum(vals, prepared);
  }

  lemma {:induction false} SamePowerSum(a: seq<Validator>, b: seq<Validator>)
    requires |a| == |b| && forall i :: 0 <= i < |a| ==> a[i].votingPower == b[i].votingPower
    ensures SumPower(a) == SumPower(b)
  {
    if a != [] { SamePowerSum(a[..|a| - 1], b[..|b| - 1]); }
  }

  // ----- The object -----

  class ValidatorSetObject {
    const validators: array<Validator>
    var proposer: Validator
    const totalPower: int

    ghost function View(): ValidatorSet
      reads this, validators
    {
      ValidatorSet(validators[..], proposer, totalPower)
    }

    constructor (validators: array<Validator>, proposer: Validator, totalPower: int)
      ensures this.validators == validators && this.proposer == proposer && this.totalPower == totalPower
    {
      this.validators, this.proposer, this.totalPower := validators, proposer, totalPower;
    }

    /** Increments the priorities in place and selects the next proposer. */
    method IncrementProposerPriority(times: int)
      modifies this, validators
      ensures View() == Increment(old(View()), times)
    {
      hide RotateOnce, Center, BestAmong;
      if validators.Length == 0 { return; }
      var i := 0;
      while i < times
        invariant 0 <= i && (i <= times || i == 0)
        invariant validators[..] == RotateTimes(old(validators[..]), totalPower, i)
      {
        Rotate(validators, totalPower);
        i := i + 1;
      }
      CenterPriorities(validators);
      var b := GetProposer(validators);
      proposer := validators[b.value];
    }

    /** A copy with incremented priorities; this set stays as it is. */
    method WithIncrementedPriority(times: int) returns (copy: ValidatorSetObject)
      ensures fresh(copy) && fresh(copy.validators) && copy.View() == Increment(View(), times)
    {
      copy := Copy();
      copy.IncrementProposerPriority(times);
    }

    method Copy() returns (copy: ValidatorSetObject)
      ensures fresh(copy) && fresh(copy.validators) && copy.View() == View()
    {
      var validators' :=
        new Validator[validators.Length](i requires 0 <= i < validators.Length reads validators => validators[i]);
      copy := new ValidatorSetObject(validators', proposer, totalPower);
    }

    method GetProposerForRound(round: int) returns (r: Validator)
      ensures r == ProposerForRound(View(), round)
    {
      if round <= 0 { return proposer; }
      var temp := WithIncrementedPriority(round);
      r := temp.proposer;
    }
  }

  /** Sets an object up from a list of validators, or reports the first fault. */
  method NewValidatorSet(vals: seq<Validator>) returns (vs: ValidatorSetObject?, error: Option<SetError>)
    ensures match Build(vals)
      case Failed(e) => vs == null && error == Some(e)
      case Built(made) => error == None && vs != null && fresh(vs) && fresh(vs.validators) && vs.View() == made
  {
    hide FirstFault, InitialPriorities, Best;
    vs, error := null, None;
    if |vals| == 0 { return null, Some(EmptySet); }
    if |vals| > MAX_VALIDATORS { return null, Some(TooManyValidators); }
    var a := new Validator[|vals|](_ => vals[0]);
    var total;
    total, error := CopyAndCheck(vals, a);
    if error.Some? { return null, error; }
    var allZero := true;
    var k := 0;
    while k < a.Length && allZero
      invariant 0 <= k <= a.Length
      invariant allZero <==> forall j :: 0 <= j < k ==> vals[j].proposerPriority == 0
      invariant a[..] == Indexed(vals)
    {
      allZero := a[k].proposerPriority == 0;
      k := k + 1;
    }
    if allZero { InitProposerPriorities(a); }
    assert a[..] == Prepared(vals);
    var b := GetProposer(a);
    vs := new ValidatorSetObject(a, a[b.value], total);
  }

  /** Copies the validators with their positions as indexes, up to the first fault. */
  method CopyAndCheck(vals: seq<Validator>, a: array<Validator>) returns (total: int, error: Option<SetError>)
    requires a.Length == |vals|
    modifies a
    ensures error == FirstFault(vals, |vals|)
    ensures error == None ==> a[..] == Indexed(vals) && total == SumPower(vals)
  {
    var names := {};
    total, error := 0, None;
    for i := 0 to |vals|
      invariant FirstFault(vals, i).None? && error == None
      invariant names == set j | 0 <= j < i :: vals[j].name
      invariant total == SumPower(vals[..i])
      invariant forall j :: 0 <= j < i ==> a[j] == vals[j].(index := j)
    {
      var v := vals[i];
      assert v.name in names <==> NameTaken(vals, i);
      assert vals[..i + 1][..i] == vals[..i];
      if v.name == "" {
        error := Some(EmptyName);
      } else if v.votingPower <= 0 {
        error := Some(InvalidPower);
      } else if v.name in names {
        error := Some(DuplicateValidator);
      } else if total > MAX_TOTAL_VOTING_POWER - v.votingPower {
        error := Some(TotalPowerOverflow);
      }
      if error.Some? {
        FaultStays(vals, i + 1, |vals|);
        return;
      }
      a[i] := v.(index := i);
      names, total := names + {v.name}, total + v.votingPower;
    }
    assert vals[..|vals|] == vals;
  }

  lemma {:induction false} FaultStays(vals: seq<Validator>, k: nat, n: nat)
    requires k <= n <= |vals| && FirstFault(vals, k).Some?
    ensures FirstFault(vals, n) == FirstFault(vals, k)
  {
    if k < n { FaultStays(vals, k, n - 1); }
  }

  // ----- Steps on the validators -----

  /** One rotation: credit every validator, then debit the best. */
  method Rotate(a: array<Validator>, total: int)
    requires a.Length > 0
    modifies a
    ensures a[..] == RotateOnce(old(a[..]), total)
  {
    for i := 0 to a.Length
      invariant forall j :: 0 <= j < i ==> a[j] == Credit(old(a[j]))
      invariant forall j :: i <= j < a.Length ==> a[j] == old(a[j])
    {
      var v := a[i];
      if v.votingPower > 0 && v.proposerPriority > MAX_PRIORITY - v.votingPower {
        a[i] := v.(proposerPriority := MAX_PRIORITY);
      } else {
        var p := v.proposerPriority + v.votingPower;
        if p > MAX_PRIORITY { p := MAX_PRIORITY; }
        a[i] := v.(proposerPriority := p);
      }
    }
    assert a[..] == CreditAll(old(a[..]));
    var found := GetProposer(a);
    var b := found.value;
    var v := a[b];
    if total > 0 && v.proposerPriority < MIN_PRIORITY + total {
      a[b] := v.(proposerPriority := MIN_PRIORITY);
    } else {
      var p := v.proposerPriority - total;
      if p < MIN_PRIORITY { p := MIN_PRIORITY; }
      a[b] := v.(proposerPriority := p);
    }
  }

  /** The position of the validator with the highest priority, if there is any validator. */
  method GetProposer(a: array<Validator>) returns (r: Option<nat>)
    ensures r == if a.Length == 0 then None else Some(Best(a[..]))
  {
    if a.Length == 0 { return None; }
    var b := 0;
    for i := 1 to a.Length
      invariant b < i && b == BestAmong(a[..], i)
    {
      if Beats(a[i], a[b]) { b := i; }
    }
    r := Some(b);
  }

  method InitProposerPriorities(a: array<Validator>)
    modifies a
    ensures a.Length > 0 ==> a[..] == InitialPriorities(old(a[..]))
  {
    for i := 0 to a.Length
      invariant forall j :: 0 <= j < i ==> a[j] == old(a[j]).(proposerPriority := old(a[j]).votingPower)
      invariant forall j :: i <= j < a.Length ==> a[j] == old(a[j])
    {
      a[i] := a[i].(proposerPriority := a[i].votingPower);
    }
    assert a[..] == PowersAsPriorities(old(a[..]));
    CenterPriorities(a);
  }

  /** The average priority; an overflowing sum counts as average zero. */
  method AveragePriority(a: array<Validator>) returns (avg: int)
    requires a.Length > 0
    ensures avg == Average(a[..])
  {
    var sum, overflow, i := 0, false, 0;
    while i < a.Length && !overflow
      invariant 0 <= i <= a.Length
      invariant CheckedSum(a[..], i) == if overflow then None else Some(sum)
    {
      var p := a[i].proposerPriority;
      if p > 0 && sum > MAX_INT64 - p {
        overflow := true;
      } else if p < 0 && sum < MIN_INT64 - p {
        overflow := true;
      } else {
        sum := sum + p;
      }
      i := i + 1;
    }
    if overflow { OverflowStays(a[..], i, a.Length); }
    avg := if overflow then 0 else TruncDiv(sum, a.Length);
  }

  /** Subtracts the average from every priority. */
  method CenterPriorities(a: array<Validator>)
    modifies a
    ensures a.Length > 0 ==> a[..] == Center(old(a[..]))
  {
    hide Average, CheckedSum;
    if a.Length == 0 { return; }
    var avg := AveragePriority(a);
    for k := 0 to a.Length
      invariant forall j :: 0 <= j < k ==>
        a[j] == old(a[j]).(proposerPriority := Wrap64(old(a[j]).proposerPriority - avg))
      invariant forall j :: k <= j < a.Length ==> a[j] == old(a[j])
    {
      a[k] := a[k].(proposerPriority := Wrap64(a[k].proposerPriority - avg));
    }
    assert a[..] == Shift(old(a[..]), avg);
  }

  lemma {:induction false} OverflowStays(vals: seq<Validator>, k: nat, n: nat)
    requires k <= n <= |vals| && CheckedSum(vals, k).None?
    ensures CheckedSum(vals, n).None?
  {
    if k < n { OverflowStays(vals, k, n - 1); }
  }
}
