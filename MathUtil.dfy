/** The numeric helpers of the engine's utility file: the array scans
    `MathUtil.Min` and `MathUtil.MinMax`, `Squared`, `Average`, the float
    `Clamp` extension, `Vector2Extensions.Dot` and the smooth-step easing
    function used by the pen. */
module MathUtil {
  import opened Platform

  /** Smallest element of a non-empty sequence; also what LINQ's `Min()`
      returns on a non-empty array. */
  function SeqMin(s: seq<real>): (r: real)
    requires |s| > 0
    ensures r in s
    ensures forall i :: 0 <= i < |s| ==> r <= s[i]
  {
    if |s| == 1 then s[0]
    else
      var m := SeqMin(s[..|s| - 1]);
      if s[|s| - 1] < m then s[|s| - 1] else m
  }

  /** Largest element of a non-empty sequence (LINQ's `Max()`). */
  function SeqMax(s: seq<real>): (r: real)
    requires |s| > 0
    ensures r in s
    ensures forall i :: 0 <= i < |s| ==> s[i] <= r
  {
    if |s| == 1 then s[0]
    else
      var m := SeqMax(s[..|s| - 1]);
      if s[|s| - 1] > m then s[|s| - 1] else m
  }

  /** `MathUtil.Min(values)`: a scan starting from `float.MaxValue`. */
  method Min(values: seq<real>) returns (min: real)
    requires forall i :: 0 <= i < |values| ==> IsFloat(values[i])
    ensures forall i :: 0 <= i < |values| ==> min <= values[i]
    ensures |values| == 0 ==> min == FloatMaxValue
    ensures |values| > 0 ==> min in values
  {
    min := FloatMaxValue;
    for i := 0 to |values|
      invariant forall j :: 0 <= j < i ==> min <= values[j]
      invariant min == FloatMaxValue || min in values[..i]
    {
      if values[i] < min {
        min := values[i];
      }
    }
    if |values| > 0 {
      assert min <= values[0];
    }
  }

  /** `MathUtil.MinMax(values)`: X is the minimum, Y the maximum, scanning from
      `(float.MaxValue, float.MinValue)`. */
  method MinMax(values: seq<real>) returns (r: Vector2)
    requires forall i :: 0 <= i < |values| ==> IsFloat(values[i])
    ensures forall i :: 0 <= i < |values| ==> r.X <= values[i] <= r.Y
    ensures |values| == 0 ==> r == Vector2(FloatMaxValue, FloatMinValue)
    ensures |values| > 0 ==> r.X in values && r.Y in values && r.X <= r.Y
  {
    var min := FloatMaxValue;
    var max := FloatMinValue;
    for i := 0 to |values|
      invariant forall j :: 0 <= j < i ==> min <= values[j] <= max
      invariant min == FloatMaxValue || min in values[..i]
      invariant max == FloatMinValue || max in values[..i]
    {
      if values[i] < min {
        min := values[i];
      }
      if values[i] > max {
        max := values[i];
      }
    }
    if |values| > 0 {
      assert min <= values[0] <= max;
    }
    r := Vector2(min, max);
  }

  /** `value.Squared()`, which the source computes as `Math.Pow(value, 2)`. */
  function Squared(value: real): (r: real)
    ensures r >= 0.0
  {
    SquareNonNegative(value);
    value * value
  }

  /** The sum LINQ's `Sum()` computes. */
  function Sum(s: seq<real>): real
  {
    if s == [] then 0.0 else Sum(s[..|s| - 1]) + s[|s| - 1]
  }

  /** `MathUtil.Average(values)`: `Sum() / Count()`. The source does not guard
      against an empty argument, so the model requires one element at least. */
  function Average(values: seq<real>): (r: real)
    requires |values| > 0
    ensures r * (|values| as real) == Sum(values)
  {
    Sum(values) / (|values| as real)
  }

  lemma {:induction false} SumBounds(s: seq<real>, lo: real, hi: real)
    requires forall i :: 0 <= i < |s| ==> lo <= s[i] <= hi
    ensures (|s| as real) * lo <= Sum(s) <= (|s| as real) * hi
  {
    if s != [] {
      var p := s[..|s| - 1];
      SumBounds(p, lo, hi);
      assert (|s| as real) * lo == (|p| as real) * lo + lo;
      assert (|s| as real) * hi == (|p| as real) * hi + hi;
    }
  }

  /** The average lies between the smallest and the largest value. */
  lemma AverageBetweenExtremes(values: seq<real>)
    requires |values| > 0
    ensures SeqMin(values) <= Average(values) <= SeqMax(values)
  {
    AverageWithinBounds(values, SeqMin(values), SeqMax(values));
  }

  lemma AverageWithinBounds(values: seq<real>, lo: real, hi: real)
    requires |values| > 0
    requires forall i :: 0 <= i < |values| ==> lo <= values[i] <= hi
    ensures lo <= Average(values) <= hi
  {
    SumBounds(values, lo, hi);
    QuotientBetween(Sum(values), |values| as real, lo, hi);
  }

  lemma QuotientBetween(sum: real, n: real, lo: real, hi: real)
    requires n > 0.0
    requires n * lo <= sum <= n * hi
    ensures lo <= sum / n <= hi
  {
    var a := sum / n;
    assert a * n == sum;
    if a < lo {
      MulLess(a, lo, n);
    }
    if a > hi {
      MulLess(hi, a, n);
    }
  }

  /** `val.Clamp(min, max)`, i.e. XNA's `MathHelper.Clamp`: the upper bound is
      applied first, then the lower bound. */
  function Clamp(val: real, min: real, max: real): (r: real)
    ensures min <= max ==> min <= r <= max
    ensures min <= val <= max ==> r == val
    ensures max < min ==> r == min
    ensures r == val || r == min || r == max
  {
    var capped := if val > max then max else val;
    if capped < min then min else capped
  }

  /** `Vector2Extensions.Dot`. */
  function Dot(self: Vector2, other: Vector2): real
  {
    self.X * other.X + self.Y * other.Y
  }

  lemma DotSymmetric(a: Vector2, b: Vector2)
    ensures Dot(a, b) == Dot(b, a)
  {
  }

  /** A vector dotted with itself is its squared length, never negative. */
  lemma DotSelf(v: Vector2)
    ensures Dot(v, v) == Squared(v.X) + Squared(v.Y) == LengthSquared(v)
    ensures Dot(v, v) >= 0.0
  {
  }

  /** `SmoothStepFunction.At(t)`: 3t^2 - 2t^3. */
  function SmoothStepAt(t: real): real
  {
    t * t * (3.0 - 2.0 * t)
  }

  lemma SmoothStepEndpoints()
    ensures SmoothStepAt(0.0) == 0.0
    ensures SmoothStepAt(1.0) == 1.0
  {
  }

  /** Smooth-step maps the unit interval into itself. */
  lemma SmoothStepUnit(t: real)
    requires 0.0 <= t <= 1.0
    ensures 0.0 <= SmoothStepAt(t) <= 1.0
  {
    var sq := t * t;
    MulNonNegative(t, t);
    MulNonNegative(sq, 3.0 - 2.0 * t);
    var u := 1.0 - t;
    MulNonNegative(u, u);
    MulNonNegative(u * u, 1.0 + 2.0 * t);
    assert 1.0 - SmoothStepAt(t) == u * u * (1.0 + 2.0 * t);
  }

  /** Smooth-step does not decrease on the unit interval. */
  lemma SmoothStepMonotone(a: real, b: real)
    requires 0.0 <= a <= b <= 1.0
    ensures SmoothStepAt(a) <= SmoothStepAt(b)
  {
    var k := 3.0 * (a + b) - 2.0 * (a * a + a * b + b * b);
    SmoothStepSlopeFactor(a, b);
    MulNonNegative(b - a, k);
    SmoothStepDifference(a, b);
  }

  lemma SmoothStepSlopeFactor(a: real, b: real)
    requires 0.0 <= a <= b <= 1.0
    ensures 3.0 * (a + b) - 2.0 * (a * a + a * b + b * b) >= 0.0
  {
    ProductAtMost(a, a);
    ProductAtMost(b, b);
    ProductAtMost(a, b);
    ProductAtMost(b, a);
    SlopeFactorLinear(a, b, a * a, b * b, a * b);
  }

  lemma SlopeFactorLinear(a: real, b: real, aa: real, bb: real, ab: real)
    requires aa <= a && bb <= b && ab <= a && ab <= b
    ensures 3.0 * (a + b) - 2.0 * (aa + ab + bb) >= 0.0
  {
  }

  /** For factors in [0,1], a product is at most its first factor. */
  lemma ProductAtMost(x: real, y: real)
    requires 0.0 <= x <= 1.0 && 0.0 <= y <= 1.0
    ensures x * y <= x
  {
    MulNonNegative(x, 1.0 - y);
    assert x * (1.0 - y) == x - x * y;
  }

  lemma SmoothStepDifference(a: real, b: real)
    ensures SmoothStepAt(b) - SmoothStepAt(a)
         == (b - a) * (3.0 * (a + b) - 2.0 * (a * a + a * b + b * b))
  {
  }
}
