/** `round(x, 2)`: rounding to two decimals, halves to even, taken on exact
    reals rather than binary floating point. */
module Rounding {

  /** `round(x)`: the nearest integer, a tie going to the even neighbour. */
  function RoundHalfEven(x: real): (n: int)
    ensures -0.5 <= n as real - x <= 0.5
    ensures n as real - x == 0.5 || n as real - x == -0.5 ==> n % 2 == 0
  {
    var f := x.Floor;
    var frac := x - f as real;
    if frac < 0.5 then f
    else if frac > 0.5 then f + 1
    else if f % 2 == 0 then f
    else f + 1
  }

  /** No other integer is as close, or as close and even: the two ensures of
      RoundHalfEven determine it. */
  lemma RoundHalfEvenUnique(x: real, m: int)
    requires -0.5 <= m as real - x <= 0.5
    requires m as real - x == 0.5 || m as real - x == -0.5 ==> m % 2 == 0
    ensures m == RoundHalfEven(x)
  {
  }

  /** `round(x, 2)`: a whole number of cents, within half a cent of x, a
      tie going to the even number of cents. */
  function Round2(x: real): (r: real)
    ensures (r * 100.0).Floor as real == r * 100.0
    ensures -0.005 <= r - x <= 0.005
    ensures r - x == 0.005 || r - x == -0.005 ==> (r * 100.0).Floor % 2 == 0
  {
    RoundHalfEven(x * 100.0) as real / 100.0
  }

  /** Rounding commutes with negation (ties to even are symmetric). */
  lemma Round2Negate(x: real)
    ensures Round2(-x) == -Round2(x)
  {
    var n := RoundHalfEven(x * 100.0);
    assert (-x) * 100.0 == -(x * 100.0);
    RoundHalfEvenUnique(-(x * 100.0), -n);
  }

  /** An amount already in whole cents is left as it is. */
  lemma Round2Cents(c: int)
    ensures Round2(c as real / 100.0) == c as real / 100.0
  {
    assert c as real / 100.0 * 100.0 == c as real;
    RoundHalfEvenUnique(c as real, c);
  }

  lemma Round2Idempotent(x: real)
    ensures Round2(Round2(x)) == Round2(x)
  {
    Round2Cents(RoundHalfEven(x * 100.0));
  }
}
