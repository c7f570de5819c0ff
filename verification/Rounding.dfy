/** Python's `round(x, n)` on exact reals: nearest multiple of the unit, ties to the even multiple. */
module Rounding {

  function RoundHalfEven(y: real): (n: int)
    ensures y - 0.5 <= n as real <= y + 0.5
    ensures n as real - y == 0.5 || y - n as real == 0.5 ==> n % 2 == 0
  {
    var f := y.Floor;
    var d := y - f as real;
    if d < 0.5 then f
    else if d > 0.5 then f + 1
    else if f % 2 == 0 then f
    else f + 1
  }

  /** `round(x, 4)`: every score, aggregate and mean. */
  function Round4(x: real): (r: real)
    ensures x - 0.00005 <= r <= x + 0.00005
  {
    RoundHalfEven(x * 10000.0) as real / 10000.0
  }

  /** `round(x, 6)`: the values of an expanded parameter range. */
  function Round6(x: real): (r: real)
    ensures x - 0.0000005 <= r <= x + 0.0000005
  {
    RoundHalfEven(x * 1000000.0) as real / 1000000.0
  }

  /** `round(x, 8)`: a service's total cost. */
  function Round8(x: real): (r: real)
    ensures x - 0.000000005 <= r <= x + 0.000000005
  {
    RoundHalfEven(x * 100000000.0) as real / 100000000.0
  }

  lemma {:induction false} RoundHalfEvenMonotone(x: real, y: real)
    requires x <= y
    ensures RoundHalfEven(x) <= RoundHalfEven(y)
  {}

  lemma {:induction false} Round4Monotone(x: real, y: real)
    requires x <= y
    ensures Round4(x) <= Round4(y)
  {
    RoundHalfEvenMonotone(x * 10000.0, y * 10000.0);
  }

  /** Rounding fixes the ends of the score range, so it never leaves it. */
  lemma {:induction false} Round4KeepsUnitRange(x: real)
    requires 0.0 <= x <= 1.0
    ensures 0.0 <= Round4(x) <= 1.0
  {
    Round4Monotone(0.0, x);
    Round4Monotone(x, 1.0);
  }

  /** A rounded value is the nearest multiple of its unit, and of two equally near ones the even one. */
  lemma {:induction false} RoundedToUnit(x: real)
    ensures NearestMultiple(x, Round4(x), 10000.0)
    ensures NearestMultiple(x, Round6(x), 1000000.0)
    ensures NearestMultiple(x, Round8(x), 100000000.0)
  {
    ScaledBack(RoundHalfEven(x * 10000.0), 10000.0);
    ScaledBack(RoundHalfEven(x * 1000000.0), 1000000.0);
    ScaledBack(RoundHalfEven(x * 100000000.0), 100000000.0);
  }

  /** `r` is a whole number of parts, `scale` to the unit, and no further than half a part from `x`. */
  predicate NearestMultiple(x: real, r: real, scale: real) {
    var n := (r * scale).Floor;
    && r * scale == n as real
    && -0.5 <= r * scale - x * scale <= 0.5
    && (r * scale - x * scale == 0.5 || x * scale - r * scale == 0.5 ==> n % 2 == 0)
  }

  lemma {:induction false} ScaledBack(n: int, scale: real)
    requires scale > 0.0
    ensures n as real / scale * scale == n as real
  {}
}
