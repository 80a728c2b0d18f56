/** Python's built-in `round`, on exact values: to the nearest integer, ties to the even one. */
module Rounding {

  /** `k` is a nearest integer to `x`, and the even one when `x` lies halfway between two. */
  predicate IsNearestEven(x: real, k: int) {
    k as real - 0.5 <= x <= k as real + 0.5 &&
    (x == k as real - 0.5 || x == k as real + 0.5 ==> k % 2 == 0)
  }

  /** `round(x)`: banker's rounding. */
  function RoundHalfEven(x: real): (r: int)
    ensures IsNearestEven(x, r)
  {
    var f := x.Floor;
    var frac := x - f as real;
    if frac < 0.5 then f
    else if frac > 0.5 then f + 1
    else if f % 2 == 0 then f
    else f + 1
  }

  /** The two conditions of IsNearestEven pin down one integer, so RoundHalfEven is the rounding. */
  lemma NearestEvenUnique(x: real, k1: int, k2: int)
    requires IsNearestEven(x, k1) && IsNearestEven(x, k2)
    ensures k1 == k2
  {
  }

  /** Shifting by an even integer shifts the rounding by the same amount (an odd shift would flip ties). */
  lemma RoundHalfEvenShift(x: real, j: int)
    ensures RoundHalfEven(x + (2 * j) as real) == RoundHalfEven(x) + 2 * j
  {
    var k := RoundHalfEven(x);
    assert (k + 2 * j) % 2 == k % 2;
    assert IsNearestEven(x + (2 * j) as real, k + 2 * j);
    NearestEvenUnique(x + (2 * j) as real, k + 2 * j, RoundHalfEven(x + (2 * j) as real));
  }

  /** `round(x, 2)`: to the nearest hundredth, ties to an even number of hundredths. */
  function Round2(x: real): (r: real)
    ensures r - 0.005 <= x <= r + 0.005
    ensures x >= 0.0 ==> r >= 0.0
    ensures x == 0.0 ==> r == 0.0
  {
    RoundHalfEven(x * 100.0) as real / 100.0
  }

  /** Adding a multiple of 0.02 commutes with rounding to two decimals; 5.0 is one such shift. */
  lemma Round2Shift(x: real, j: int)
    ensures Round2(x + j as real / 50.0) == Round2(x) + j as real / 50.0
  {
    assert (x + j as real / 50.0) * 100.0 == x * 100.0 + (2 * j) as real;
    RoundHalfEvenShift(x * 100.0, j);
  }
}
