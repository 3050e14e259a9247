/**
 * The two numeric conversions of Python that the account store relies on,
 * stated over exact reals: `round(x)` (round half to even) and `int(x)` on a
 * float (truncation toward zero).
 */
module PyNum {

  /** Python's `round(x)`: the nearest integer, a tie going to the even one. */
  function RoundHalfEven(x: real): (r: int)
    ensures x - 0.5 <= r as real <= x + 0.5
    ensures r as real - x == 0.5 || x - r as real == 0.5 ==> r % 2 == 0
  {
    var f := x.Floor;
    var frac := x - f as real;
    if frac < 0.5 then f
    else if frac > 0.5 then f + 1
    else if f % 2 == 0 then f
    else f + 1
  }

  /** Python's `int(x)` on a float: the integer part, truncated toward zero. */
  function TruncateToInt(x: real): (n: int)
    ensures 0.0 <= x ==> 0 <= n && n as real <= x < n as real + 1.0
    ensures x < 0.0 ==> n <= 0 && n as real - 1.0 < x <= n as real
  {
    if 0.0 <= x then x.Floor else -((-x).Floor)
  }

  /** Rounding leaves a value that is already whole unchanged. */
  lemma RoundWhole(n: int)
    ensures RoundHalfEven(n as real) == n
  {
  }
}
