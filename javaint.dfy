/** Java's integer operators, written out over Dafny's unbounded integers.
    Java's `/` truncates toward zero and its `%` takes the sign of the dividend;
    Dafny's own `/` and `%` are Euclidean, so the two differ on negative operands. */
module JavaInt {

  const INT_MIN: int := -0x8000_0000
  const INT_MAX: int := 0x7fff_ffff

  /** The range of a Java `int`. */
  predicate IsInt(x: int) {
    INT_MIN <= x <= INT_MAX
  }

  /** Java's `a / b` for a positive divisor: the quotient truncated toward zero. */
  function Div(a: int, b: int): int
    requires b > 0
  {
    if a >= 0 then a / b else -((-a) / b)
  }

  /** Java's `a % b` for a positive divisor: the remainder with the sign of `a`. */
  function Rem(a: int, b: int): int
    requires b > 0
  {
    if a >= 0 then a % b else -((-a) % b)
  }

  /** Quotient and remainder recompose the dividend; the remainder is smaller than the
      divisor in magnitude and never has the opposite sign of the dividend. */
  lemma DivRem(a: int, b: int)
    requires b > 0
    ensures a == Div(a, b) * b + Rem(a, b)
    ensures a >= 0 ==> 0 <= Rem(a, b) < b
    ensures a < 0 ==> -b < Rem(a, b) <= 0
  {
  }

  /** Truncating division never moves away from zero and stops short of it by less
      than one divisor: the quotient has the sign of the dividend. */
  lemma DivBounds(a: int, b: int)
    requires b > 0
    ensures a >= 0 ==> 0 <= Div(a, b) * b <= a < Div(a, b) * b + b
    ensures a < 0 ==> Div(a, b) * b - b < a <= Div(a, b) * b <= 0
  {
    if a >= 0 {
      DivBoundsNonNegative(a, b);
    } else {
      DivBoundsNonNegative(-a, b);
      assert Div(a, b) == -Div(-a, b);
      assert Div(a, b) * b == -(Div(-a, b) * b);
    }
  }

  /** The non-negative half of DivBounds, where Java's division is Dafny's. */
  lemma DivBoundsNonNegative(a: int, b: int)
    requires a >= 0 && b > 0
    ensures 0 <= Div(a, b) * b <= a < Div(a, b) * b + b
  {
    var q, r := a / b, a % b;
    assert a == q * b + r && 0 <= r < b;
    MulNonNegative(q, b);
  }

  lemma MulNonNegative(x: int, y: int)
    requires x >= 0 && y >= 0
    ensures x * y >= 0
  {
  }
}
