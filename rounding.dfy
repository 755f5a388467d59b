/**
 * Rounding of report values to 4 decimal places with ties to even, as
 * Python's round(x, 4) does for the exact value it is given.
 */
module Rounding {
  import opened Descriptive

  /** Nearest integer to y; a tie (fraction exactly 1/2) goes to the even neighbour. */
  function RoundHalfEven(y: real): (n: int)
    ensures Abs(y - n as real) <= 0.5
    ensures Abs(y - n as real) == 0.5 ==> n % 2 == 0
  {
    var f := y.Floor;
    var frac := y - f as real;
    if frac < 0.5 then f
    else if frac > 0.5 then f + 1
    else if f % 2 == 0 then f
    else f + 1
  }

  const DecimalScale: real := 10000.0

  /**
   * x rounded to the fourth decimal place: a whole number of ten-thousandths,
   * no further than half of one from x, and on an exact tie the even one.
   */
  function Round4(x: real): (r: real)
    ensures (r * DecimalScale).Floor as real == r * DecimalScale
    ensures Abs(r - x) <= 0.00005
    ensures Abs(r - x) == 0.00005 ==> (r * DecimalScale).Floor % 2 == 0
    ensures x >= 0.0 ==> r >= 0.0
    ensures x <= 1.0 ==> r <= 1.0
    ensures x == 0.0 ==> r == 0.0
  {
    var n := RoundHalfEven(x * DecimalScale);
    var r := n as real / DecimalScale;
    assert r * DecimalScale == n as real;
    assert Abs(x * DecimalScale - n as real) == DecimalScale * Abs(x - r);
    assert x >= 0.0 ==> n >= 0;
    assert x <= 1.0 ==> n <= 10000;
    r
  }

  /** No whole number of ten-thousandths is closer to x than Round4(x). */
  lemma Round4Nearest(x: real, m: int)
    ensures Abs(Round4(x) - x) <= Abs(m as real / DecimalScale - x)
  {
    var n := RoundHalfEven(x * DecimalScale);
    var y := x * DecimalScale;
    assert Round4(x) == n as real / DecimalScale;
    assert Abs(n as real - y) <= Abs(m as real - y) by {
      if m != n {
        assert m <= n - 1 || m >= n + 1;
      }
    }
    assert Abs(Round4(x) - x) == Abs(n as real - y) / DecimalScale;
    assert Abs(m as real / DecimalScale - x) == Abs(m as real - y) / DecimalScale;
  }
}
