/**
 Integer renderings of the two JavaScript rounding functions the application
 applies to ratios: `Math.round(a / b)` and `Math.ceil(a / b)`.
 Dafny's `/` on `int` is Euclidean; with a positive divisor that is floor
 division, which both definitions below rely on.
 */
module Numeric {

  /** `Math.round(num / den)`: the nearest integer, a half rounded towards +infinity. */
  function RoundRatio(num: int, den: int): (r: int)
    requires den != 0
    ensures (r as real) - 0.5 <= (num as real) / (den as real) < (r as real) + 0.5
  {
    if den > 0 then
      var r := (2 * num + den) / (2 * den);
      RoundBounds(num, den, r);
      r
    else
      var r := (-2 * num - den) / (-2 * den);
      RoundBounds(-num, -den, r);
      assert (-num as real) / (-den as real) == (num as real) / (den as real);
      r
  }

  /** The floor-division bounds on `r` give the real-valued rounding bounds. */
  lemma RoundBounds(num: int, den: int, r: int)
    requires den > 0
    requires r == (2 * num + den) / (2 * den)
    ensures (r as real) - 0.5 <= (num as real) / (den as real) < (r as real) + 0.5
  {
    var m := (2 * num + den) % (2 * den);
    assert 2 * num + den == 2 * den * r + m && 0 <= m < 2 * den;
    var q := (num as real) / (den as real);
    assert q * (den as real) == num as real;
    assert (2 * r - 1) * den <= 2 * num < (2 * r + 1) * den;
    assert ((2 * r - 1) as real) * (den as real) <= 2.0 * q * (den as real);
    assert 2.0 * q * (den as real) < ((2 * r + 1) as real) * (den as real);
  }

  /** `Math.ceil(num / den)` for a positive divisor: the least integer not below the quotient. */
  function CeilDiv(num: int, den: int): (r: int)
    requires den > 0
    ensures (r - 1) * den < num <= r * den
  {
    (num + den - 1) / den
  }

  /** Math.round is monotone: a smaller ratio never rounds to a larger integer. */
  lemma RoundRatioMonotone(a: int, b: int, den: int)
    requires den > 0 && a <= b
    ensures RoundRatio(a, den) <= RoundRatio(b, den)
  {
    FloorDivMonotone(2 * a + den, 2 * b + den, 2 * den);
  }

  lemma FloorDivMonotone(x: int, y: int, d: int)
    requires d > 0 && x <= y
    ensures x / d <= y / d
  {
    var qx, qy := x / d, y / d;
    if qy < qx {
      MulNonNegative(d, qx - qy - 1);
      assert false;
    }
  }

  lemma MulNonNegative(a: int, b: int)
    requires a >= 0 && b >= 0
    ensures a * b >= 0
  {
  }

  /** Scaling by a non-negative factor keeps order. */
  lemma MulMonotone(a: int, b: int, c: int)
    requires a <= b && c >= 0
    ensures a * c <= b * c
  {
    MulNonNegative(b - a, c);
    assert b * c - a * c == (b - a) * c;
  }
}
