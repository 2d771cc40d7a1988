/**
 * The two interpolation helpers of the noise kernel: the quintic ease
 * curve `blend` and the linear interpolation `lerp`, both lambdas inside
 * Noise2D. The same curve is sampled on its own by the plotting demo.
 */
module Interpolation {

  /** The quintic ease curve 6t^5 - 15t^4 + 10t^3 (std::pow with integer
      exponents becomes repeated multiplication over the reals). */
  function Blend(t: real): (r: real)
    ensures t == 0.0 ==> r == 0.0
    ensures t == 1.0 ==> r == 1.0
    ensures t == 0.5 ==> r == 0.5
  {
    6.0 * t * t * t * t * t - 15.0 * t * t * t * t + 10.0 * t * t * t
  }

  /** Linear interpolation from `a` (at t = 0) to `b` (at t = 1); for a
      weight in the unit interval the result lies between the two ends. */
  function Lerp(t: real, a: real, b: real): (r: real)
    ensures t == 0.0 ==> r == a
    ensures t == 1.0 ==> r == b
    ensures 0.0 <= t <= 1.0 && a <= b ==> a <= r <= b
    ensures 0.0 <= t <= 1.0 && b <= a ==> b <= r <= a
  {
    var r := a + t * (b - a);
    assert 0.0 <= t <= 1.0 ==> (a <= b ==> a <= r <= b) && (b <= a ==> b <= r <= a) by {
      if 0.0 <= t <= 1.0 && a <= b {
        MulNonnegative(t, b - a);
        MulNonnegative(1.0 - t, b - a);
      } else if 0.0 <= t <= 1.0 {
        MulNonnegative(t, a - b);
        MulNonnegative(1.0 - t, a - b);
      }
    }
    r
  }

  lemma MulNonnegative(x: real, y: real)
    requires 0.0 <= x && 0.0 <= y
    ensures 0.0 <= x * y
  {
  }

  /** The curve is point-symmetric about (1/2, 1/2). */
  lemma BlendSymmetric(t: real)
    ensures Blend(1.0 - t) == 1.0 - Blend(t)
  {
  }

  /** The curve maps the unit interval into itself. */
  lemma BlendRange(t: real)
    requires 0.0 <= t <= 1.0
    ensures 0.0 <= Blend(t) <= 1.0
  {
    BlendNonnegative(t);
    BlendNonnegative(1.0 - t);
    BlendSymmetric(t);
  }

  lemma BlendNonnegative(t: real)
    requires 0.0 <= t
    ensures 0.0 <= Blend(t)
  {
    var cube := t * t * t;
    var q := 6.0 * t * t - 15.0 * t + 10.0;
    assert q == 6.0 * (t - 1.25) * (t - 1.25) + 0.625;
    assert q > 0.0;
    assert cube >= 0.0 by {
      assert t * t >= 0.0;
    }
    assert Blend(t) == cube * q;
  }

  /** The curve never decreases: its slope 30t^2(1-t)^2 is nonnegative
      everywhere, so in particular it is monotone on the unit interval. */
  lemma BlendMonotone(s: real, t: real)
    requires s <= t
    ensures Blend(s) <= Blend(t)
  {
    var d := t - s;
    BlendDifference(s, d);
    QuotientIsSumOfSquares(s, d);
    MulNonnegative(d, Quotient(s, d));
  }

  /** (Blend(s + d) - Blend(s)) / d, as a polynomial in s and d: the
      divided differences of the three powers, weighted as in Blend. */
  function Quotient(s: real, d: real): real
  {
    6.0 * (5.0 * s * s * s * s + 10.0 * s * s * s * d + 10.0 * s * s * d * d + 5.0 * s * d * d * d + d * d * d * d)
    - 15.0 * (4.0 * s * s * s + 6.0 * s * s * d + 4.0 * s * d * d + d * d * d)
    + 10.0 * (3.0 * s * s + 3.0 * s * d + d * d)
  }

  lemma BlendDifference(s: real, d: real)
    ensures Blend(s + d) - Blend(s) == d * Quotient(s, d)
  {
    var t := s + d;
    assert Blend(t) == 6.0 * (t * t * t * t * t) - 15.0 * (t * t * t * t) + 10.0 * (t * t * t);
    assert Blend(s) == 6.0 * (s * s * s * s * s) - 15.0 * (s * s * s * s) + 10.0 * (s * s * s);
    CubeDifference(s, d);
    FourthDifference(s, d);
    FifthDifference(s, d);
  }

  lemma CubeDifference(s: real, d: real)
    ensures (s + d) * (s + d) * (s + d) - s * s * s == d * (3.0 * s * s + 3.0 * s * d + d * d)
  {
  }

  lemma FourthDifference(s: real, d: real)
    ensures (s + d) * (s + d) * (s + d) * (s + d) - s * s * s * s
         == d * (4.0 * s * s * s + 6.0 * s * s * d + 4.0 * s * d * d + d * d * d)
  {
  }

  lemma FifthDifference(s: real, d: real)
    ensures (s + d) * (s + d) * (s + d) * (s + d) * (s + d) - s * s * s * s * s
         == d * (5.0 * s * s * s * s + 10.0 * s * s * s * d + 10.0 * s * s * d * d + 5.0 * s * d * d * d + d * d * d * d)
  {
  }

  /** The quotient is 30 times the mean of (w(1-w))^2 for w between s and
      s + d; the Cholesky factors of that quadratic form make it a sum of
      squares, hence nonnegative. */
  lemma QuotientIsSumOfSquares(s: real, d: real)
    ensures Quotient(s, d) >= 0.0
  {
    var al, be, ga := s * (1.0 - s), d * (1.0 - 2.0 * s), -d * d;
    var p := al + be / 2.0 + ga / 3.0;
    var q := be + ga;
    assert Quotient(s, d) == 30.0 * (p * p + q * q / 12.0 + ga * ga / 180.0);
  }
}
