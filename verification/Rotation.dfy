/**
 * Weighted proposer rotation as functions on the validator list: crediting every validator, debiting
 * the best one, centering, and the arithmetic that holds over any number of rotations.
 */
module Rotation {
  import opened Types
  import opened Validators

  const MAX_PRIORITY: int := MAX_TOTAL_VOTING_POWER
  const MIN_PRIORITY: int := -MAX_TOTAL_VOTING_POWER

  // ----- One rotation -----

  function Credit(v: Validator): Validator {
    if v.votingPower > 0 && v.proposerPriority > MAX_PRIORITY - v.votingPower then
      v.(proposerPriority := MAX_PRIORITY)
    else if v.proposerPriority + v.votingPower > MAX_PRIORITY then
      v.(proposerPriority := MAX_PRIORITY)
    else
      v.(proposerPriority := v.proposerPriority + v.votingPower)
  }

  function CreditAll(vals: seq<Validator>): seq<Validator> {
    seq(|vals|, i requires 0 <= i < |vals| => Credit(vals[i]))
  }

  function Debit(v: Validator, total: int): Validator {
    if total > 0 && v.proposerPriority < MIN_PRIORITY + total then
      v.(proposerPriority := MIN_PRIORITY)
    else if v.proposerPriority - total < MIN_PRIORITY then
      v.(proposerPriority := MIN_PRIORITY)
    else
      v.(proposerPriority := v.proposerPriority - total)
  }

  /** Higher priority wins; equal priorities go to the lexicographically smaller name. */
  predicate Beats(a: Validator, b: Validator) {
    a.proposerPriority > b.proposerPriority
    || (a.proposerPriority == b.proposerPriority && LexLess(a.name, b.name))
  }

  /** The position a left-to-right scan of the first `k` validators settles on. */
  function BestAmong(vals: seq<Validator>, k: nat): (b: nat)
    requires 0 < k <= |vals|
    ensures b < k
  {
    if k == 1 then 0 else
      var b := BestAmong(vals, k - 1);
      if Beats(vals[k - 1], vals[b]) then k - 1 else b
  }

  function Best(vals: seq<Validator>): (b: nat)
    requires vals != []
    ensures b < |vals|
  {
    BestAmong(vals, |vals|)
  }

  function RotateOnce(vals: seq<Validator>, total: int): (r: seq<Validator>)
    requires vals != []
    ensures |r| == |vals|
  {
    var credited := CreditAll(vals);
    var b := Best(credited);
    credited[b := Debit(credited[b], total)]
  }

  function RotateTimes(vals: seq<Validator>, total: int, times: nat): (r: seq<Validator>)
    requires vals != []
    ensures |r| == |vals|
  {
    if times == 0 then vals else RotateOnce(RotateTimes(vals, total, times - 1), total)
  }

  // ----- Centering -----

  /** The sum of the first `k` priorities, or none when a 64-bit addition would overflow. */
  function CheckedSum(vals: seq<Validator>, k: nat): Option<int>
    requires k <= |vals|
  {
    if k == 0 then Some(0) else
      var prev := CheckedSum(vals, k - 1);
      if prev.None? then None else
        var p := vals[k - 1].proposerPriority;
        if p > 0 && prev.value > MAX_INT64 - p then None
        else if p < 0 && prev.value < MIN_INT64 - p then None
        else Some(prev.value + p)
  }

  function Average(vals: seq<Validator>): int
    requires vals != []
  {
    var sum := CheckedSum(vals, |vals|);
    if sum.None? then 0 else TruncDiv(sum.value, |vals|)
  }

  function Shift(vals: seq<Validator>, avg: int): seq<Validator> {
    seq(|vals|, i requires 0 <= i < |vals| =>
      vals[i].(proposerPriority := Wrap64(vals[i].proposerPriority - avg)))
  }

  function Center(vals: seq<Validator>): (r: seq<Validator>)
    requires vals != []
    ensures |r| == |vals|
  {
    Shift(vals, Average(vals))
  }

  /** Unless the sum overflows, the average is that of the priorities, rounded toward zero. */
  lemma AverageMeaning(vals: seq<Validator>)
    requires vals != []
    ensures var sum, avg := CheckedSum(vals, |vals|), Average(vals);
      && (sum.None? ==> avg == 0)
      && (sum.Some? && sum.value >= 0 ==> 0 <= avg * |vals| <= sum.value < avg * |vals| + |vals|)
      && (sum.Some? && sum.value < 0 ==> avg * |vals| - |vals| < sum.value <= avg * |vals| <= 0)
  {
    hide CheckedSum;
    var sum := CheckedSum(vals, |vals|);
    if sum.Some? { TruncDivMeaning(sum.value, |vals|); }
  }

  // ----- Operations on a set -----

  function Increment(vs: ValidatorSet, times: int): ValidatorSet {
    if vs.validators == [] then vs else
      var vals := Center(RotateTimes(vs.validators, vs.totalPower, if times < 0 then 0 else times));
      vs.(validators := vals, proposer := vals[Best(vals)])
  }

  function ProposerForRound(vs: ValidatorSet, round: int): Validator {
    if round <= 0 then vs.proposer else Increment(vs, round).proposer
  }

  /** Priorities a new set starts from when all were zero. */
  function InitialPriorities(vals: seq<Validator>): (r: seq<Validator>)
    requires vals != []
    ensures |r| == |vals|
  {
    Center(PowersAsPriorities(vals))
  }

  /** Priorities equal to the powers: what initialization centers. */
  function PowersAsPriorities(vals: seq<Validator>): seq<Validator> {
    seq(|vals|, i requires 0 <= i < |vals| => vals[i].(proposerPriority := vals[i].votingPower))
  }

  // ----- The chosen proposer -----

  ghost predicate DistinctNames(vals: seq<Validator>) {
    forall i, j :: 0 <= i < j < |vals| ==> vals[i].name != vals[j].name
  }

  lemma BeatsTransitive(a: Validator, b: Validator, c: Validator)
    requires Beats(a, b) && Beats(b, c)
    ensures Beats(a, c)
  {
    if a.proposerPriority == c.proposerPriority { LexLessTransitive(a.name, b.name, c.name); }
  }

  lemma BeatsAsymmetric(a: Validator, b: Validator)
    requires Beats(a, b)
    ensures !Beats(b, a)
  {
    if a.proposerPriority == b.proposerPriority { LexLessAsymmetric(a.name, b.name); }
  }

  lemma BeatsTotal(a: Validator, b: Validator)
    requires a.name != b.name
    ensures Beats(a, b) || Beats(b, a)
  {
    LexLessTotal(a.name, b.name);
  }

  /** The scan finds the one validator that beats all others. */
  lemma {:induction false} BestAmongBeatsAll(vals: seq<Validator>, k: nat)
    requires 0 < k <= |vals| && DistinctNames(vals)
    ensures forall j :: 0 <= j < k && j != BestAmong(vals, k) ==> Beats(vals[BestAmong(vals, k)], vals[j])
  {
    if k > 1 {
      BestAmongBeatsAll(vals, k - 1);
      var b := BestAmong(vals, k - 1);
      BeatsTotal(vals[k - 1], vals[b]);
      if Beats(vals[k - 1], vals[b]) {
        forall j | 0 <= j < k && j != k - 1 ensures Beats(vals[k - 1], vals[j]) {
          if j != b { BeatsTransitive(vals[k - 1], vals[b], vals[j]); }
        }
      }
    }
  }

  /** The choice does not depend on how the validators are ordered. */
  lemma ProposerOrderIndependent(xs: seq<Validator>, ys: seq<Validator>)
    requires xs != [] && ys != [] && DistinctNames(xs) && DistinctNames(ys)
    requires forall v :: v in xs <==> v in ys
    ensures xs[Best(xs)] == ys[Best(ys)]
  {
    BestAmongBeatsAll(xs, |xs|);
    BestAmongBeatsAll(ys, |ys|);
    var x, y := xs[Best(xs)], ys[Best(ys)];
    assert x in ys && y in xs by { assert x in xs && y in ys; }
    if x != y {
      var j :| 0 <= j < |xs| && xs[j] == y;
      var i :| 0 <= i < |ys| && ys[i] == x;
      BeatsAsymmetric(x, y);
    }
  }

  /** A credit adds the power up to the maximum; a debit takes off the total down to the minimum. */
  lemma ClampedRotation(vals: seq<Validator>, total: int, i: nat)
    requires i < |vals| && total > 0 && vals[i].votingPower > 0
    ensures var credited, r := CreditAll(vals), RotateOnce(vals, total);
      var sum := vals[i].proposerPriority + vals[i].votingPower;
      && credited[i].proposerPriority == (if sum > MAX_PRIORITY then MAX_PRIORITY else sum)
      && r[i].proposerPriority ==
         if i != Best(credited) then credited[i].proposerPriority
         else if credited[i].proposerPriority - total < MIN_PRIORITY then MIN_PRIORITY
         else credited[i].proposerPriority - total
  {
    hide BestAmong;
  }

  // ----- Arithmetic of rotations -----

  function SumPriority(vals: seq<Validator>): int {
    if vals == [] then 0 else SumPriority(vals[..|vals| - 1]) + vals[|vals| - 1].proposerPriority
  }

  /** Same validators up to priority. */
  ghost predicate SameValidators(a: seq<Validator>, b: seq<Validator>) {
    && |a| == |b|
    && forall i :: 0 <= i < |a| ==> a[i] == b[i].(proposerPriority := a[i].proposerPriority)
  }

  /** The regime the arithmetic stays in: small total power and a centred priority sum. */
  ghost predicate Balanced(vals: seq<Validator>, total: int) {
    && vals != [] && PositivePower(vals) && total == SumPower(vals)
    && |vals| * total <= MAX_PRIORITY
    && 0 <= SumPriority(vals) < |vals|
    && forall i :: 0 <= i < |vals| ==> 1 - total <= vals[i].proposerPriority
  }

  lemma {:induction false} SumUpdate(vals: seq<Validator>, i: nat, v: Validator)
    requires i < |vals|
    ensures SumPriority(vals[i := v]) == SumPriority(vals) - vals[i].proposerPriority + v.proposerPriority
  {
    var n := |vals| - 1;
    if i < n {
      assert vals[i := v][..n] == vals[..n][i := v];
      SumUpdate(vals[..n], i, v);
    } else {
      assert vals[i := v][..n] == vals[..n];
    }
  }

  /** The sum is at least one entry plus a common lower bound on the others. */
  lemma {:induction false} SumAtLeast(vals: seq<Validator>, lo: int)
    requires forall j :: 0 <= j < |vals| ==> vals[j].proposerPriority >= lo
    ensures SumPriority(vals) >= |vals| * lo
    ensures forall i :: 0 <= i < |vals| ==> SumPriority(vals) >= vals[i].proposerPriority + (|vals| - 1) * lo
  {
    if vals != [] {
      var n := |vals| - 1;
      SumAtLeast(vals[..n], lo);
      assert (n + 1) * lo == n * lo + lo;
      forall i | 0 <= i < |vals| ensures SumPriority(vals) >= vals[i].proposerPriority + n * lo {
        if i < n {
          assert vals[..n][i] == vals[i];
          assert n * lo == (n - 1) * lo + lo;
        }
      }
    }
  }

  lemma {:induction false} SumAtMost(vals: seq<Validator>, hi: int)
    requires forall j :: 0 <= j < |vals| ==> vals[j].proposerPriority <= hi
    ensures SumPriority(vals) <= |vals| * hi
  {
    if vals != [] {
      var n := |vals| - 1;
      SumAtMost(vals[..n], hi);
      assert (n + 1) * hi == n * hi + hi;
    }
  }

  /** Every priority of a balanced list lies in [1 - total, (n - 1) * total]. */
  lemma BalancedBounds(vals: seq<Validator>, total: int, i: nat)
    requires Balanced(vals, total) && i < |vals|
    ensures 1 - total <= vals[i].proposerPriority <= (|vals| - 1) * total
    ensures 0 < vals[i].votingPower <= total
  {
    var n := |vals|;
    SumAtLeast(vals, 1 - total);
    assert (n - 1) * (1 - total) == (n - 1) - (n - 1) * total;
    PowerOfMonotone(vals, {i}, {i});
    PowerOfSingle(vals, i);
  }

  lemma PowerOfSingle(vals: seq<Validator>, i: nat)
    requires i < |vals|
    ensures PowerOf(vals, {i}) == vals[i].votingPower
  {
    PowerOfEmpty(vals);
    PowerOfAdd(vals, {}, i);
    assert {} + {i} == {i};
  }

  lemma {:induction false} BestAmongIsMaximal(vals: seq<Validator>, k: nat)
    requires 0 < k <= |vals|
    ensures forall j :: 0 <= j < k ==> vals[j].proposerPriority <= vals[BestAmong(vals, k)].proposerPriority
  {
    if k > 1 { BestAmongIsMaximal(vals, k - 1); }
  }

  /** Crediting a balanced list adds each power exactly: no clamp is reached. */
  lemma CreditExact(vals: seq<Validator>, total: int)
    requires Balanced(vals, total)
    ensures forall i :: 0 <= i < |vals| ==>
      CreditAll(vals)[i] == vals[i].(proposerPriority := vals[i].proposerPriority + vals[i].votingPower)
  {
    forall i | 0 <= i < |vals|
      ensures Credit(vals[i]) == vals[i].(proposerPriority := vals[i].proposerPriority + vals[i].votingPower)
    {
      BalancedBounds(vals, total, i);
      assert (|vals| - 1) * total + total == |vals| * total;
    }
  }

  lemma {:induction false} SumOfCredited(a: seq<Validator>, b: seq<Validator>)
    requires |a| == |b|
    requires forall i :: 0 <= i < |a| ==> b[i] == a[i].(proposerPriority := a[i].proposerPriority + a[i].votingPower)
    ensures SumPriority(b) == SumPriority(a) + SumPower(a)
    ensures SumPower(b) == SumPower(a)
  {
    if a != [] { SumOfCredited(a[..|a| - 1], b[..|b| - 1]); }
  }

  lemma {:induction false} SumPowerSame(a: seq<Validator>, b: seq<Validator>)
    requires SameValidators(a, b)
    ensures SumPower(a) == SumPower(b)
  {
    if a != [] {
      var n := |a| - 1;
      assert forall i :: 0 <= i < n ==> a[..n][i] == a[i] && b[..n][i] == b[i];
      SumPowerSame(a[..n], b[..n]);
    }
  }

  /** The validator about to be debited has positive priority. */
  lemma BestIsPositive(vals: seq<Validator>, total: int)
    requires Balanced(vals, total)
    ensures var credited := CreditAll(vals); credited[Best(credited)].proposerPriority >= 1
  {
    var credited := CreditAll(vals);
    CreditExact(vals, total);
    SumOfCredited(vals, credited);
    SumPowerPositive(vals);
    BestAmongIsMaximal(credited, |credited|);
    if credited[Best(credited)].proposerPriority <= 0 { SumAtMost(credited, 0); }
  }

  /** What one rotation does to each priority: add its power, and take the total from the best. */
  ghost predicate ExactStep(vals: seq<Validator>, next: seq<Validator>, total: int, debited: nat) {
    && SameValidators(next, vals)
    && forall i :: 0 <= i < |vals| ==>
         next[i].proposerPriority ==
           vals[i].proposerPriority + vals[i].votingPower - (if i == debited then total else 0)
  }

  function Debited(vals: seq<Validator>): nat
    requires vals != []
  {
    Best(CreditAll(vals))
  }

  /** One rotation of a balanced list reaches no clamp, conserves the sum and stays balanced. */
  lemma RotateOnceExact(vals: seq<Validator>, total: int)
    requires Balanced(vals, total)
    ensures var next := RotateOnce(vals, total);
      && ExactStep(vals, next, total, Debited(vals))
      && SumPriority(next) == SumPriority(vals)
      && Balanced(next, total)
  {
    var credited, next := CreditAll(vals), RotateOnce(vals, total);
    var b := Best(credited);
    CreditExact(vals, total);
    BestIsPositive(vals, total);
    SumOfCredited(vals, credited);
    SumPowerPositive(vals);
    ProductAtLeast(|vals|, total);
    assert Debit(credited[b], total)
      == credited[b].(proposerPriority := credited[b].proposerPriority - total);
    SumUpdate(credited, b, Debit(credited[b], total));
    SumPowerSame(next, vals);
  }

  /** How often validator `i` is debited in the first `k` rotations. */
  function Debits(vals: seq<Validator>, total: int, k: nat, i: nat): nat
    requires vals != []
  {
    if k == 0 then 0 else
      Debits(vals, total, k - 1, i) + if Debited(RotateTimes(vals, total, k - 1)) == i then 1 else 0
  }

  /** Each priority is its start plus `k` times its power minus the total for each debit. */
  ghost predicate Ledger(vals: seq<Validator>, total: int, k: nat, r: seq<Validator>)
    requires vals != []
  {
    && SameValidators(r, vals)
    && forall i :: 0 <= i < |vals| ==>
         r[i].proposerPriority ==
           vals[i].proposerPriority + k * vals[i].votingPower - total * Debits(vals, total, k, i)
  }

  lemma LedgerAdvance(vals: seq<Validator>, total: int, k: nat, next: seq<Validator>)
    requires vals != [] && k > 0
    requires Ledger(vals, total, k - 1, RotateTimes(vals, total, k - 1))
    requires var prev := RotateTimes(vals, total, k - 1); ExactStep(prev, next, total, Debited(prev))
    ensures Ledger(vals, total, k, next)
  {
    hide RotateTimes, Debited;
    forall i | 0 <= i < |vals|
      ensures next[i].proposerPriority ==
        vals[i].proposerPriority + k * vals[i].votingPower - total * Debits(vals, total, k, i)
    {
      LedgerStep(total, k, vals[i].votingPower, Debits(vals, total, k - 1, i), Debits(vals, total, k, i));
    }
  }

  /** After any number of rotations the sum is conserved, the list is balanced and the ledger holds. */
  lemma {:induction false} RotationLedger(vals: seq<Validator>, total: int, k: nat)
    requires vals != [] && Balanced(vals, total)
    ensures var r := RotateTimes(vals, total, k);
      Balanced(r, total) && SumPriority(r) == SumPriority(vals) && Ledger(vals, total, k, r)
  {
    hide *;
    if k == 0 {
      LedgerStart(vals, total);
    } else {
      RotationLedger(vals, total, k - 1);
      RotateOnceExact(RotateTimes(vals, total, k - 1), total);
      RotateTimesUnfold(vals, total, k);
      LedgerAdvance(vals, total, k, RotateTimes(vals, total, k));
    }
  }

  lemma LedgerStart(vals: seq<Validator>, total: int)
    requires vals != []
    ensures RotateTimes(vals, total, 0) == vals && Ledger(vals, total, 0, vals)
  {}

  lemma RotateTimesUnfold(vals: seq<Validator>, total: int, k: nat)
    requires vals != [] && k > 0
    ensures RotateTimes(vals, total, k) == RotateOnce(RotateTimes(vals, total, k - 1), total)
  {}

  lemma LedgerStep(total: int, k: nat, power: int, before: nat, after: nat)
    requires k > 0
    ensures k * power == (k - 1) * power + power
    ensures after == before ==> total * after == total * before
    ensures after == before + 1 ==> total * after == total * before + total
  {}

  // ----- Centering a balanced list does nothing -----

  lemma {:induction false} PrefixSumBounds(vals: seq<Validator>, total: int, k: nat)
    requires Balanced(vals, total) && k <= |vals|
    ensures -MAX_PRIORITY <= SumPriority(vals[..k]) <= MAX_PRIORITY
  {
    var n := |vals|;
    SumPowerPositive(vals);
    SumAtLeast(vals[..k], 1 - total);
    SumAtLeast(vals[k..], 1 - total);
    SumConcat(vals[..k], vals[k..]);
    assert vals[..k] + vals[k..] == vals;
    ScaleBounds(n, k, total);
    ScaleBounds(n, n - k, total);
  }

  lemma ScaleBounds(n: nat, k: nat, total: int)
    requires k <= n && total >= 1 && n <= total
    ensures k * (1 - total) >= -(n * total) + n
  {
    assert k * (1 - total) == k - k * total;
    assert (n - k) * (total - 1) >= 0;
    assert (n - k) * (total - 1) == n * total - n - k * total + k;
  }

  lemma {:induction false} SumConcat(a: seq<Validator>, b: seq<Validator>)
    ensures SumPriority(a + b) == SumPriority(a) + SumPriority(b)
  {
    if b == [] {
      assert a + b == a;
    } else {
      var n := |b| - 1;
      assert (a + b)[..|a + b| - 1] == a + b[..n];
      SumConcat(a, b[..n]);
    }
  }

  lemma {:induction false} CheckedSumExact(vals: seq<Validator>, total: int, k: nat)
    requires Balanced(vals, total) && k <= |vals|
    ensures CheckedSum(vals, k) == Some(SumPriority(vals[..k]))
  {
    if k > 0 {
      CheckedSumExact(vals, total, k - 1);
      PrefixSumBounds(vals, total, k);
      PrefixSumBounds(vals, total, k - 1);
      assert vals[..k][..k - 1] == vals[..k - 1];
    }
  }

  /** No overflow branch of the sum is taken, the average is zero and no priority moves. */
  lemma CenterIsIdentity(vals: seq<Validator>, total: int)
    requires Balanced(vals, total)
    ensures CheckedSum(vals, |vals|) == Some(SumPriority(vals))
    ensures Average(vals) == 0 && Center(vals) == vals
  {
    CheckedSumExact(vals, total, |vals|);
    assert vals[..|vals|] == vals;
    SmallTruncDiv(SumPriority(vals), |vals|);
    ShiftByZero(vals, total);
  }

  lemma SmallTruncDiv(a: int, b: int)
    requires 0 <= a < b
    ensures TruncDiv(a, b) == 0
  {}

  lemma ShiftByZero(vals: seq<Validator>, total: int)
    requires Balanced(vals, total)
    ensures Shift(vals, 0) == vals
  {
    forall i | 0 <= i < |vals| ensures Shift(vals, 0)[i] == vals[i] {
      BalancedFits(vals, total, i);
      WrapIdentity(vals[i].proposerPriority);
    }
  }

  lemma WrapIdentity(x: int)
    requires MIN_INT64 <= x <= MAX_INT64
    ensures Wrap64(x) == x
  {}

  lemma BalancedFits(vals: seq<Validator>, total: int, i: nat)
    requires Balanced(vals, total) && i < |vals|
    ensures MIN_PRIORITY <= vals[i].proposerPriority <= MAX_PRIORITY
  {
    BalancedBounds(vals, total, i);
    SumPowerPositive(vals);
    assert (|vals| - 1) * total + total == |vals| * total;
    assert (|vals| - 1) * total >= 0;
  }

  // ----- Sets built from zero priorities -----

  lemma {:induction false} ShiftSum(a: seq<Validator>, b: seq<Validator>, avg: int)
    requires |a| == |b|
    requires forall i :: 0 <= i < |a| ==>
      b[i].proposerPriority == a[i].votingPower - avg && b[i].votingPower == a[i].votingPower
    ensures SumPriority(b) == SumPower(a) - |a| * avg && SumPower(b) == SumPower(a)
  {
    if a != [] {
      var n := |a| - 1;
      ShiftSum(a[..n], b[..n], avg);
      assert (n + 1) * avg == n * avg + avg;
    }
  }

  lemma {:induction false} SumOfPowers(vals: seq<Validator>, k: nat)
    requires k <= |vals| && PositivePower(vals) && SumPower(vals) <= MAX_PRIORITY
    requires forall i :: 0 <= i < |vals| ==> vals[i].proposerPriority == vals[i].votingPower
    ensures CheckedSum(vals, k) == Some(SumPower(vals[..k]))
    ensures 0 <= SumPower(vals[..k]) <= SumPower(vals)
  {
    PrefixPower(vals, k);
    if k > 0 {
      SumOfPowers(vals, k - 1);
      assert vals[..k][..k - 1] == vals[..k - 1];
    }
  }

  lemma {:induction false} PrefixPower(vals: seq<Validator>, k: nat)
    requires k <= |vals| && PositivePower(vals)
    ensures 0 <= SumPower(vals[..k]) <= SumPower(vals)
    decreases |vals| - k
  {
    SumPowerPositive(vals[..k]);
    if k < |vals| {
      PrefixPower(vals, k + 1);
      assert vals[..k + 1][..k] == vals[..k];
    } else {
      assert vals[..k] == vals;
    }
  }

  lemma PowersAverage(vals: seq<Validator>)
    requires vals != [] && PositivePower(vals) && SumPower(vals) <= MAX_PRIORITY
    ensures Average(PowersAsPriorities(vals)) == SumPower(vals) / |vals|
  {
    var start := PowersAsPriorities(vals);
    SumPowerSame(start, vals);
    SumOfPowers(start, |vals|);
    assert start[..|vals|] == start;
    SumPowerPositive(vals);
  }

  lemma ShareBounds(total: int, n: nat)
    requires n > 0 && total >= n
    ensures 0 <= total / n <= total && 0 <= total - n * (total / n) < n && total <= n * total
  {
    var q, r := total / n, total % n;
    assert total == q * n + r && 0 <= r < n;
    ProductAtLeast(n, total);
    if q < 0 { NegativeProduct(n, q); }
    ProductAtLeast(n, q);
  }

  lemma {:induction false} NegativeProduct(n: nat, q: int)
    requires n > 0 && q < 0
    ensures q * n + n <= 0
  {
    if n > 1 {
      NegativeProduct(n - 1, q);
      assert q * n == q * (n - 1) + q;
    }
  }

  lemma ProductAtLeast(n: nat, x: int)
    requires n > 0 && x >= 0
    ensures x <= n * x
  {}

  lemma ShiftedPower(vals: seq<Validator>, avg: int, i: nat)
    requires i < |vals| && 0 < vals[i].votingPower <= MAX_PRIORITY && 0 <= avg <= MAX_PRIORITY
    ensures Shift(PowersAsPriorities(vals), avg)[i]
      == vals[i].(proposerPriority := vals[i].votingPower - avg)
  {
    WrapIdentity(vals[i].votingPower - avg);
  }

  lemma InitialPriority(vals: seq<Validator>, i: nat)
    requires i < |vals| && PositivePower(vals) && SumPower(vals) <= MAX_PRIORITY
    ensures 0 < vals[i].votingPower <= SumPower(vals)
    ensures InitialPriorities(vals)[i]
      == vals[i].(proposerPriority := vals[i].votingPower - SumPower(vals) / |vals|)
  {
    hide SumPower, PowerOf, Average, Shift, PowersAsPriorities;
    SumPowerPositive(vals);
    ShareBounds(SumPower(vals), |vals|);
    PowersAverage(vals);
    PowerOfSingle(vals, i);
    PowerOfMonotone(vals, {i}, {i});
    ShiftedPower(vals, SumPower(vals) / |vals|, i);
  }

  /** A set that starts from zero priorities is balanced after initialization. */
  lemma InitialIsBalanced(vals: seq<Validator>)
    requires vals != [] && PositivePower(vals) && |vals| * SumPower(vals) <= MAX_PRIORITY
    ensures Balanced(InitialPriorities(vals), SumPower(vals))
    ensures SameValidators(InitialPriorities(vals), vals)
    ensures forall i :: 0 <= i < |vals| ==>
      InitialPriorities(vals)[i].proposerPriority == vals[i].votingPower - SumPower(vals) / |vals|
  {
    SumPowerPositive(vals);
    ShareBounds(SumPower(vals), |vals|);
    forall i | 0 <= i < |vals|
      ensures InitialPriorities(vals)[i]
        == vals[i].(proposerPriority := vals[i].votingPower - SumPower(vals) / |vals|)
      ensures 0 < vals[i].votingPower <= SumPower(vals)
    {
      InitialPriority(vals, i);
    }
    ShiftSum(vals, InitialPriorities(vals), SumPower(vals) / |vals|);
  }

  // ----- Results over any number of rotations -----

  /** A set whose priorities are balanced and whose recorded proposer is the current best. */
  ghost predicate BalancedSet(vs: ValidatorSet) {
    && Balanced(vs.validators, vs.totalPower)
    && vs.proposer == vs.validators[Best(vs.validators)]
  }

  lemma {:induction false} RotateTimesAdd(vals: seq<Validator>, total: int, a: nat, b: nat, mid: seq<Validator>)
    requires vals != [] && mid == RotateTimes(vals, total, a)
    ensures RotateTimes(mid, total, b) == RotateTimes(vals, total, a + b)
  {
    hide RotateOnce;
    if b > 0 {
      RotateTimesAdd(vals, total, a, b - 1, mid);
      RotateTimesUnfold(mid, total, b);
      RotateTimesUnfold(vals, total, a + b);
    }
  }

  /** Rotating keeps a set balanced, touches priorities only, and conserves their sum. */
  lemma IncrementKeepsBalanced(vs: ValidatorSet, times: nat)
    requires BalancedSet(vs)
    ensures var r := Increment(vs, times);
      && BalancedSet(r) && r.totalPower == vs.totalPower
      && SameValidators(r.validators, vs.validators)
      && SumPriority(r.validators) == SumPriority(vs.validators)
      && r.validators == RotateTimes(vs.validators, vs.totalPower, times)
  {
    RotationLedger(vs.validators, vs.totalPower, times);
    CenterIsIdentity(RotateTimes(vs.validators, vs.totalPower, times), vs.totalPower);
  }

  /** Rotating `a` times and then `b` times is rotating `a + b` times. */
  lemma IncrementAdds(vs: ValidatorSet, a: nat, b: nat)
    requires BalancedSet(vs)
    ensures Increment(Increment(vs, a), b) == Increment(vs, a + b)
  {
    IncrementKeepsBalanced(vs, a);
    IncrementKeepsBalanced(Increment(vs, a), b);
    IncrementKeepsBalanced(vs, a + b);
    RotateTimesAdd(vs.validators, vs.totalPower, a, b, RotateTimes(vs.validators, vs.totalPower, a));
  }

  /**
   * Starting from zero priorities, after `k` rotations the number of debits of a validator differs
   * from its proportional share `k * power / total` by less than the number of validators.
   */
  lemma ProportionalDebits(vals: seq<Validator>, k: nat, i: nat)
    requires vals != [] && PositivePower(vals) && |vals| * SumPower(vals) <= MAX_PRIORITY && i < |vals|
    ensures var total := SumPower(vals);
      var debits := Debits(InitialPriorities(vals), total, k, i);
      -(|vals| * total) < total * debits - k * vals[i].votingPower < |vals| * total
  {
    var total := SumPower(vals);
    var start := InitialPriorities(vals);
    InitialIsBalanced(vals);
    RotationLedger(start, total, k);
    BalancedBounds(start, total, i);
    BalancedBounds(RotateTimes(start, total, k), total, i);
    SumPowerPositive(vals);
    DeviationBounds(|vals|, total, vals[i].votingPower, start[i].proposerPriority,
                    RotateTimes(start, total, k)[i].proposerPriority);
  }

  /** The gap between first and last priority stays below the number of validators times the total. */
  lemma DeviationBounds(n: nat, total: int, power: int, first: int, last: int)
    requires n > 0 && n <= total && 0 < power <= total && first == power - total / n
    requires n == 1 ==> power == total
    requires 1 - total <= last <= (n - 1) * total
    ensures -(n * total) < first - last < n * total
  {
    assert (n - 1) * total == n * total - total;
    ShareBounds(total, n);
    if n >= 2 {
      assert (n - 2) * total >= 0;
      assert (n - 2) * total == n * total - 2 * total;
    }
  }

  /** No validator is starved: a long enough window always debits it. */
  lemma NoStarvation(vals: seq<Validator>, from: nat, window: nat, i: nat)
    requires vals != [] && PositivePower(vals) && |vals| * SumPower(vals) <= MAX_PRIORITY && i < |vals|
    requires window * vals[i].votingPower >= 2 * |vals| * SumPower(vals)
    ensures var start := InitialPriorities(vals);
      Debits(start, SumPower(vals), from, i) < Debits(start, SumPower(vals), from + window, i)
  {
    var total := SumPower(vals);
    ProportionalDebits(vals, from, i);
    ProportionalDebits(vals, from + window, i);
    SumPowerPositive(vals);
    WindowGap(|vals|, total, vals[i].votingPower, from, window,
              Debits(InitialPriorities(vals), total, from, i),
              Debits(InitialPriorities(vals), total, from + window, i));
  }

  lemma WindowGap(n: nat, total: int, power: int, from: nat, window: nat, a: nat, b: nat)
    requires total > 0 && window * power >= 2 * n * total
    requires -(n * total) < total * a - from * power < n * total
    requires -(n * total) < total * b - (from + window) * power < n * total
    ensures a < b
  {
    assert (from + window) * power == from * power + window * power;
    assert 2 * n * total == 2 * (n * total);
    assert total * b - total * a > 0;
    assert total * (b - a) > 0 by { assert total * (b - a) == total * b - total * a; }
  }

  /** The proposer of a later round is the validator that beats all others after as many rotations. */
  lemma ProposerAfterRotations(vs: ValidatorSet, round: nat)
    requires BalancedSet(vs) && round > 0 && DistinctNames(vs.validators)
    ensures var rotated := RotateTimes(vs.validators, vs.totalPower, round);
      var proposer := ProposerForRound(vs, round);
      && (exists b :: 0 <= b < |rotated| && rotated[b] == proposer)
      && forall v :: v in rotated ==> v == proposer || Beats(proposer, v)
  {
    hide BestAmong, RotateTimes;
    IncrementKeepsBalanced(vs, round);
    var rotated := Increment(vs, round).validators;
    assert DistinctNames(rotated);
    BestAmongBeatsAll(rotated, |rotated|);
  }
}
