/** The SDK's fixed-point decimals (sdk.Dec): integers scaled by 10^18. Bit-length limits are left
    out; the rounding rules are the SDK's. */
module Decimal {

  const ONE: int := 1_000_000_000_000_000_000

  /** big.Int.Quo: division that truncates toward zero. */
  function Quo(x: int, d: int): int
    requires d > 0
  {
    if x >= 0 then x / d else -(-x / d)
  }

  /** `chopPrecisionAndRound`: divide by 10^18, half to even. */
  function RoundHalfEven(x: int): int
    decreases x < 0
  {
    if x < 0 then -RoundHalfEven(-x)
    else
      var quo, rem := x / ONE, x % ONE;
      if rem < ONE / 2 then quo
      else if rem > ONE / 2 then quo + 1
      else if quo % 2 == 0 then quo
      else quo + 1
  }

  /** `Dec.Mul`. */
  function Mul(a: int, b: int): int {
    RoundHalfEven(a * b)
  }

  /** `Dec.MulTruncate`. */
  function MulTruncate(a: int, b: int): int {
    Quo(a * b, ONE)
  }

  /** `Dec.MulInt`. */
  function MulInt(a: int, i: int): int {
    a * i
  }

  /** `Dec.TruncateInt`. */
  function TruncateInt(a: int): int {
    Quo(a, ONE)
  }

  /** `Dec.Ceil`. */
  function Ceil(a: int): int {
    var quo := Quo(a, ONE);
    var rem := a - quo * ONE;
    if rem > 0 then (quo + 1) * ONE else quo * ONE
  }

  /** `Dec.RoundInt`. */
  function RoundInt(a: int): int {
    RoundHalfEven(a)
  }

  /** `sdk.NewDec`, `Int.ToDec`. */
  function NewDec(i: int): int {
    i * ONE
  }

  /** The least integer at or above the decimal a. */
  function CeilInt(a: int): (c: int)
    ensures (c - 1) * ONE < a <= c * ONE
  {
    -(-a / ONE)
  }

  /** Half to even: the result is a nearest integer, and the even one when two are as near. */
  lemma RoundNearest(x: int)
    ensures var r := RoundHalfEven(x);
      && -ONE <= 2 * (x - r * ONE) <= ONE
      && (2 * (x - r * ONE) == ONE || 2 * (x - r * ONE) == -ONE ==> r % 2 == 0)
  {
    if x < 0 {
      NonNegativeNearest(-x);
    } else {
      NonNegativeNearest(x);
    }
  }

  lemma NonNegativeNearest(x: int)
    requires x >= 0
    ensures var r := RoundHalfEven(x);
      && -ONE <= 2 * (x - r * ONE) <= ONE
      && (2 * (x - r * ONE) == ONE || 2 * (x - r * ONE) == -ONE ==> r % 2 == 0)
  {}

  // ----- rounding that never happens

  /** A product that is a whole number of units is not rounded. */
  lemma RoundExact(q: int)
    ensures RoundHalfEven(q * ONE) == q
  {
    if q >= 0 {
      assert q * ONE / ONE == q && q * ONE % ONE == 0;
    } else {
      assert -q * ONE / ONE == -q && -q * ONE % ONE == 0;
    }
  }

  /** Multiplying by a whole number is exact. */
  lemma MulWhole(a: int, i: int)
    ensures Mul(a, NewDec(i)) == a * i
  {
    assert a * NewDec(i) == a * i * ONE;
    RoundExact(a * i);
  }

  /** Rounding up a whole number of units changes nothing more. */
  lemma CeilRound(a: int)
    requires a >= 0
    ensures RoundInt(Ceil(a)) == CeilInt(a)
  {
    var quo := a / ONE;
    RoundExact(quo);
    RoundExact(quo + 1);
  }

  lemma CeilIntMonotone(a: int, b: int)
    requires a <= b
    ensures CeilInt(a) <= CeilInt(b)
  {}

  // ----- nested floors

  lemma DivMonotone(a: int, b: int, d: int)
    requires a <= b && d > 0
    ensures a / d <= b / d
  {
    if a / d >= b / d + 1 {
      MulLe(b / d + 1, a / d, d);
    }
  }

  lemma MulLe(a: int, b: int, c: int)
    requires a <= b && c >= 0
    ensures a * c <= b * c
  {}

  lemma DivUnique(x: int, d: int, q: int)
    requires d > 0 && q * d <= x < q * d + d
    ensures x / d == q
  {
    if x / d > q {
      MulLe(q + 1, x / d, d);
    } else if x / d < q {
      MulLe(x / d + 1, q, d);
    }
  }

  /** Two successive truncations are one. */
  lemma DivDiv(x: int, a: int, b: int)
    requires a > 0 && b > 0
    ensures a * b > 0 && x / a / b == x / (a * b)
  {
    var y := x / a;
    var q := y / b;
    MulLe(1, a, b);
    assert q * b <= y && y + 1 <= q * b + b;
    MulLe(q * b, y, a);
    MulLe(y + 1, q * b + b, a);
    assert q * (a * b) == q * b * a;
    assert (q * b + b) * a == q * (a * b) + a * b;
    assert y * a <= x < y * a + a;
    DivUnique(x, a * b, q);
  }
}
