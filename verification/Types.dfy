/** Values shared by every part of the engine: optional values, byte strings and block hashes. */
module Types {

  datatype Option<+T> = None | Some(value: T)

  type Byte = x: int | 0 <= x < 256

  type Bytes = seq<Byte>

  const MAX_INT64: int := 0x7FFF_FFFF_FFFF_FFFF
  const MIN_INT64: int := -0x8000_0000_0000_0000
  const MAX_INT32: int := 0x7FFF_FFFF

  /** Two's complement wrap-around of a 64-bit signed result. */
  function Wrap64(x: int): int {
    (x + 0x8000_0000_0000_0000) % 0x1_0000_0000_0000_0000 - 0x8000_0000_0000_0000
  }

  /** Integer division that truncates toward zero. */
  function TruncDiv(a: int, b: int): int
    requires b > 0
  {
    if a >= 0 then a / b else -((-a) / b)
  }

  /** The quotient lies between zero and the exact one, and less than one away from it. */
  lemma TruncDivMeaning(a: int, b: int)
    requires b > 0
    ensures a >= 0 ==> 0 <= TruncDiv(a, b) * b <= a < TruncDiv(a, b) * b + b
    ensures a < 0 ==> a <= TruncDiv(a, b) * b <= 0 && TruncDiv(a, b) * b - b < a
  {
    if a >= 0 {
      Quotient(a, b);
    } else {
      Quotient(-a, b);
      Negated((-a) / b, b);
    }
  }

  lemma Quotient(a: nat, b: int)
    requires b > 0
    ensures 0 <= (a / b) * b <= a < (a / b) * b + b
  {
    assert a == (a / b) * b + a % b;
  }

  lemma Negated(q: int, b: int)
    ensures (-q) * b == -(q * b)
  {}

  /** A block hash is empty when it is absent or consists of zero bytes only. */
  predicate IsHashEmpty(h: Option<Bytes>) {
    h.None? || forall i :: 0 <= i < |h.value| ==> h.value[i] == 0
  }

  /** The value a vote counts for: every empty hash stands for nil. */
  function BlockKey(h: Option<Bytes>): Option<Bytes> {
    if IsHashEmpty(h) then None else h
  }

  /** Byte-wise lexicographic order on names. */
  predicate LexLess(a: string, b: string) {
    b != [] && (a == [] || a[0] < b[0] || (a[0] == b[0] && LexLess(a[1..], b[1..])))
  }

  lemma {:induction false} LexLessAsymmetric(a: string, b: string)
    requires LexLess(a, b)
    ensures !LexLess(b, a)
  {
    if a != [] && a[0] == b[0] { LexLessAsymmetric(a[1..], b[1..]); }
  }

  lemma {:induction false} LexLessTotal(a: string, b: string)
    ensures a == b || LexLess(a, b) || LexLess(b, a)
  {
    if a != [] && b != [] && a[0] == b[0] {
      LexLessTotal(a[1..], b[1..]);
      if a[1..] == b[1..] {
        assert a == [a[0]] + a[1..] && b == [b[0]] + b[1..];
      }
    }
  }

  lemma {:induction false} LexLessTransitive(a: string, b: string, c: string)
    requires LexLess(a, b) && LexLess(b, c)
    ensures LexLess(a, c)
  {
    if a != [] && a[0] == b[0] && b[0] == c[0] {
      LexLessTransitive(a[1..], b[1..], c[1..]);
    }
  }
}
