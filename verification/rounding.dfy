/** Clamping and two-place rounding of scores, on exact reals. */
module Rounding {

  /** `max(0.0, min(10.0, x))`: the nearest point of [0, 10] to `x`. */
  function Clamp(x: real): (r: real)
    ensures 0.0 <= r <= 10.0
    ensures 0.0 <= x <= 10.0 ==> r == x
    ensures x < 0.0 ==> r == 0.0
    ensures x > 10.0 ==> r == 10.0
  {
    if x < 0.0 then 0.0 else if x > 10.0 then 10.0 else x
  }

  /** Clamping never reverses the order of two values. */
  lemma ClampMonotone(x: real, y: real)
    requires x <= y
    ensures Clamp(x) <= Clamp(y)
  {
  }

  /** `x` is a whole number of hundredths. */
  predicate WholeHundredths(x: real)
  {
    (x * 100.0).Floor as real == x * 100.0
  }

  /**
   * `round(x, 2)`: the nearest multiple of 0.01, ties going to the even
   * hundredth, computed on the exact value of `x`.
   */
  function Round2(x: real): (r: real)
    ensures x - 0.005 <= r <= x + 0.005
    ensures WholeHundredths(r)
  {
    var y := x * 100.0;
    var f := y.Floor;
    var d := y - f as real;
    var k := if d > 0.5 || (d == 0.5 && f % 2 != 0) then f + 1 else f;
    assert y - 0.5 <= k as real <= y + 0.5;
    var r := k as real / 100.0;
    assert r * 100.0 == k as real;
    assert (k as real).Floor == k;
    r
  }

  /** A value that is already a whole number of hundredths is left alone. */
  lemma Round2Exact(x: real)
    requires WholeHundredths(x)
    ensures Round2(x) == x
  {
  }

  /** Rounding keeps a score inside [0, 10]. */
  lemma Round2Bounds(x: real)
    requires 0.0 <= x <= 10.0
    ensures 0.0 <= Round2(x) <= 10.0
  {
  }
}
