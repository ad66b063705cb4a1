/** The arithmetic the gesture controllers use: numpy's two-point linear
    interpolation with clamping, Python's `int()` on a real, and the snap of a
    pixel coordinate down to an even value. All of it is exact real and
    integer arithmetic; floating-point rounding is not modelled. */
module Interpolation {

  /** `np.interp(x, [x0, x1], [y0, y1])`: the line through (x0, y0) and
      (x1, y1), held at y0 left of x0 and at y1 right of x1. */
  function Interp(x: real, x0: real, x1: real, y0: real, y1: real): (r: real)
    requires x0 < x1
    ensures y0 <= y1 ==> y0 <= r <= y1
    ensures y1 <= y0 ==> y1 <= r <= y0
  {
    if x <= x0 then y0
    else if x >= x1 then y1
    else
      var t := (x - x0) / (x1 - x0);
      FractionInUnit(x - x0, x1 - x0);
      y0 + t * (y1 - y0)
  }

  /** A proper fraction of positive reals lies strictly between 0 and 1. */
  lemma FractionInUnit(a: real, b: real)
    requires 0.0 < a < b
    ensures 0.0 < a / b < 1.0
  {
    var q := a / b;
    assert q * b == a;
    if q >= 1.0 {
      assert false;  // then q * b >= b > a
    }
  }

  /** The product of two positive reals is positive (a step the strict
      monotonicity proof needs spelled out). */
  lemma ProductPositive(p: real, q: real)
    requires 0.0 < p && 0.0 < q
    ensures 0.0 < p * q
  {
  }

  /** Python's `int()` on a real: truncation toward zero. */
  function Truncate(r: real): (t: int)
    ensures 0.0 <= r ==> 0 <= t && t as real <= r < t as real + 1.0
    ensures r < 0.0 ==> t <= 0 && t as real - 1.0 < r <= t as real
  {
    if r >= 0.0 then r.Floor else -((-r).Floor)
  }

  /** `v - v % 2` for a non-negative pixel coordinate: the largest even value
      not above `v`. */
  function SnapEven(v: int): (r: int)
    requires v >= 0
    ensures r % 2 == 0
    ensures 0 <= r <= v < r + 2
  {
    v - v % 2
  }

  /** Outside the table the value is held at the nearer end. */
  lemma InterpClamps(x: real, x0: real, x1: real, y0: real, y1: real)
    requires x0 < x1
    ensures x <= x0 ==> Interp(x, x0, x1, y0, y1) == y0
    ensures x >= x1 ==> Interp(x, x0, x1, y0, y1) == y1
  {
  }

  /** Inside the table the point (x, r) lies on the line through (x0, y0)
      and (x1, y1). */
  lemma InterpOnLine(x: real, x0: real, x1: real, y0: real, y1: real)
    requires x0 <= x <= x1 && x0 < x1
    ensures (Interp(x, x0, x1, y0, y1) - y0) * (x1 - x0) == (x - x0) * (y1 - y0)
  {
    if x0 < x < x1 {
      var t := (x - x0) / (x1 - x0);
      assert t * (x1 - x0) == x - x0;
      calc {
        (Interp(x, x0, x1, y0, y1) - y0) * (x1 - x0);
        t * (y1 - y0) * (x1 - x0);
        t * (x1 - x0) * (y1 - y0);
      }
    }
  }

  /** For a rising table, a larger input never gives a smaller value. */
  lemma InterpMonotone(a: real, b: real, x0: real, x1: real, y0: real, y1: real)
    requires x0 < x1 && y0 <= y1 && a <= b
    ensures Interp(a, x0, x1, y0, y1) <= Interp(b, x0, x1, y0, y1)
  {
    if x0 < a && b < x1 {
      InterpScaled(a, b, x0, x1, y0, y1);
    }
  }

  /** For a strictly rising table, the map is strictly increasing on [x0, x1]. */
  lemma InterpStrictlyMonotone(a: real, b: real, x0: real, x1: real, y0: real, y1: real)
    requires x0 <= a < b <= x1 && y0 < y1
    ensures Interp(a, x0, x1, y0, y1) < Interp(b, x0, x1, y0, y1)
  {
    if x0 < a && b < x1 {
      InterpScaled(a, b, x0, x1, y0, y1);
    } else if a == x0 && b < x1 {
      var t := (b - x0) / (x1 - x0);
      FractionInUnit(b - x0, x1 - x0);
      ProductPositive(t, y1 - y0);
      assert Interp(b, x0, x1, y0, y1) == y0 + t * (y1 - y0);
    } else if x0 < a && b == x1 {
      var t := (a - x0) / (x1 - x0);
      FractionInUnit(a - x0, x1 - x0);
      ProductPositive(1.0 - t, y1 - y0);
      assert Interp(a, x0, x1, y0, y1) == y0 + t * (y1 - y0);
    }
  }

  /** Two inner points compare like their inputs, scaled by the slope. */
  lemma InterpScaled(a: real, b: real, x0: real, x1: real, y0: real, y1: real)
    requires x0 < a <= b < x1 && y0 <= y1
    ensures Interp(a, x0, x1, y0, y1) <= Interp(b, x0, x1, y0, y1)
    ensures a < b && y0 < y1 ==> Interp(a, x0, x1, y0, y1) < Interp(b, x0, x1, y0, y1)
  {
    var d := x1 - x0;
    var ta, tb := (a - x0) / d, (b - x0) / d;
    assert ta * d == a - x0 && tb * d == b - x0;
    assert (tb - ta) * d == b - a;
    assert ta <= tb;
    assert ta * (y1 - y0) <= tb * (y1 - y0) by {
      assert (tb - ta) * (y1 - y0) >= 0.0;
    }
    if a < b && y0 < y1 {
      assert ta < tb;
      assert (tb - ta) * (y1 - y0) > 0.0;
    }
  }

  /** Truncation and flooring agree on non-negative reals (a corollary of
      the contract of Truncate). */
  lemma TruncateIsFloor(r: real)
    requires 0.0 <= r
    ensures Truncate(r) == r.Floor
  {
  }

  /** The snapped value is the largest even value not above its input (a
      corollary of the contract of SnapEven). */
  lemma SnapEvenIsLargestEven(v: int, e: int)
    requires v >= 0 && e % 2 == 0 && e <= v
    ensures e <= SnapEven(v)
  {
  }
}
