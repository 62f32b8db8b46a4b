/**
 * The string that a tracked vote is filed under: validator name, height, round and type joined by
 * slashes. Two votes share it exactly when they agree in all four, even if names contain slashes.
 */
module VoteKeys {
  import opened VoteSets
  import opened Evidence

  function Digit(d: nat): char
    requires d < 10
  {
    "0123456789"[d]
  }

  function Decimal(n: nat): (s: string)
    ensures s != ""
  {
    if n < 10 then [Digit(n)] else Decimal(n / 10) + [Digit(n % 10)]
  }

  function SignedDecimal(n: int): string { if n < 0 then "-" + Decimal(-n) else Decimal(n) }

  predicate NoSlash(s: string) { '/' !in s }

  lemma {:induction false} DecimalDigits(n: nat)
    ensures forall i :: 0 <= i < |Decimal(n)| ==> '0' <= Decimal(n)[i] <= '9'
  {
    if n >= 10 { DecimalDigits(n / 10); }
  }

  lemma {:induction false} DecimalInjective(m: nat, n: nat)
    requires Decimal(m) == Decimal(n)
    ensures m == n
  {
    var s, t := Decimal(m), Decimal(n);
    assert s[|s| - 1] == Digit(m % 10) && t[|t| - 1] == Digit(n % 10);
    if m >= 10 && n >= 10 {
      assert s[..|s| - 1] == Decimal(m / 10) && t[..|t| - 1] == Decimal(n / 10);
      DecimalInjective(m / 10, n / 10);
    }
  }

  lemma SignedDecimalFacts(m: int, n: int)
    ensures NoSlash(SignedDecimal(m))
    ensures SignedDecimal(m) == SignedDecimal(n) ==> m == n
  {
    var a, b := if m < 0 then -m else m, if n < 0 then -n else n;
    DecimalDigits(a);
    DecimalDigits(b);
    if SignedDecimal(m) == SignedDecimal(n) {
      assert (m < 0) == (n < 0) by {
        assert Decimal(a)[0] != '-' && Decimal(b)[0] != '-';
      }
      assert m < 0 ==> SignedDecimal(m)[1..] == Decimal(a) && SignedDecimal(n)[1..] == Decimal(b);
      DecimalInjective(a, b);
    }
  }

  function Joined(a: string, b: string): string { a + "/" + b }

  lemma JoinedInjective(a: string, b: string, c: string, d: string)
    requires NoSlash(b) && NoSlash(d) && Joined(a, b) == Joined(c, d)
    ensures a == c && b == d
  {
    var s := Joined(a, b);
    assert s[|a|] == '/' && s[|c|] == '/';
    LastSlash(a, b);
    LastSlash(c, d);
    assert s[..|a|] == a && s[..|c|] == c && s[|a| + 1..] == b && s[|c| + 1..] == d;
  }

  lemma LastSlash(a: string, b: string)
    requires NoSlash(b)
    ensures forall i :: |a| < i < |Joined(a, b)| ==> Joined(a, b)[i] != '/'
  {
    forall i | |a| < i < |Joined(a, b)| ensures Joined(a, b)[i] != '/' {
      assert Joined(a, b)[i] == b[i - |a| - 1];
    }
  }

  function TypeCode(t: VoteType): int {
    match t
    case Prevote => 1
    case Precommit => 2
    case OtherVote(code) => code
  }

  /** Prevotes and precommits are not spelled as other types. */
  predicate Canonical(t: VoteType) { t.OtherVote? ==> t.code != 1 && t.code != 2 }

  function KeyString(k: VoteKey): string {
    Joined(Joined(Joined(k.validator, SignedDecimal(k.height)), SignedDecimal(k.round)),
           SignedDecimal(TypeCode(k.vtype)))
  }

  lemma KeyStringInjective(k: VoteKey, l: VoteKey)
    requires Canonical(k.vtype) && Canonical(l.vtype)
    ensures KeyString(k) == KeyString(l) <==> k == l
  {
    hide SignedDecimal, Joined, NoSlash;
    SignedDecimalFacts(k.height, l.height);
    SignedDecimalFacts(k.round, l.round);
    SignedDecimalFacts(TypeCode(k.vtype), TypeCode(l.vtype));
    SignedDecimalFacts(l.height, k.height);
    SignedDecimalFacts(l.round, k.round);
    SignedDecimalFacts(TypeCode(l.vtype), TypeCode(k.vtype));
    if KeyString(k) == KeyString(l) {
      var k2, l2 := Joined(k.validator, SignedDecimal(k.height)), Joined(l.validator, SignedDecimal(l.height));
      var k3, l3 := Joined(k2, SignedDecimal(k.round)), Joined(l2, SignedDecimal(l.round));
      JoinedInjective(k3, SignedDecimal(TypeCode(k.vtype)), l3, SignedDecimal(TypeCode(l.vtype)));
      JoinedInjective(k2, SignedDecimal(k.round), l2, SignedDecimal(l.round));
      JoinedInjective(k.validator, SignedDecimal(k.height), l.validator, SignedDecimal(l.height));
    }
  }
}
