/** The pieces of C#, .NET and XNA semantics that the heat-map core relies on:
    the `Vector2` value type, `MathHelper.Lerp`, `float.MaxValue`, the `(int)`
    cast from float, the `%` operator on `int` and `List<T>.Remove`.
    Floats are modelled as mathematical reals (no rounding, no NaN, no infinity). */
module Platform {

  /** XNA `Vector2`: a value type with public X and Y. */
  datatype Vector2 = Vector2(X: real, Y: real)

  /** A reference that may be null. */
  datatype Option<T> = None | Some(value: T)

  const Zero: Vector2 := Vector2(0.0, 0.0)

  function Add(a: Vector2, b: Vector2): (r: Vector2)
    ensures r.X - a.X == b.X && r.Y - a.Y == b.Y
  {
    Vector2(a.X + b.X, a.Y + b.Y)
  }

  function Sub(a: Vector2, b: Vector2): (r: Vector2)
    ensures Add(r, b) == a
  {
    Vector2(a.X - b.X, a.Y - b.Y)
  }

  function Scale(k: real, v: Vector2): Vector2
  {
    Vector2(k * v.X, k * v.Y)
  }

  /** `Vector2.LengthSquared()`. */
  function LengthSquared(v: Vector2): (r: real)
    ensures r >= 0.0
  {
    SquareNonNegative(v.X);
    SquareNonNegative(v.Y);
    v.X * v.X + v.Y * v.Y
  }

  lemma SquareNonNegative(x: real)
    ensures x * x >= 0.0
    ensures x != 0.0 ==> x * x > 0.0
  {
    if x < 0.0 {
      assert x * x == (-x) * (-x);
      MulPositive(-x, -x);
    } else if x > 0.0 {
      MulPositive(x, x);
    }
  }

  /** `float.MaxValue`, the largest finite single-precision value. */
  const FloatMaxValue: real := 340282346638528859811704183484516925440.0
  /** `float.MinValue`. */
  const FloatMinValue: real := -FloatMaxValue

  /** A real that a finite `float` can hold, as far as magnitude goes. */
  predicate IsFloat(x: real)
  {
    FloatMinValue <= x <= FloatMaxValue
  }

  /** `MathHelper.Lerp(value1, value2, amount)` as XNA computes it. */
  function Lerp(value1: real, value2: real, amount: real): real
  {
    value1 + (value2 - value1) * amount
  }

  lemma LerpEndpoints(value1: real, value2: real)
    ensures Lerp(value1, value2, 0.0) == value1
    ensures Lerp(value1, value2, 1.0) == value2
  {
  }

  /** For an amount in [0,1] the interpolant lies between the two ends. */
  lemma LerpBetween(value1: real, value2: real, amount: real)
    requires 0.0 <= amount <= 1.0
    requires value1 <= value2
    ensures value1 <= Lerp(value1, value2, amount) <= value2
  {
    var d := value2 - value1;
    MulNonNegative(d, amount);
    MulNonNegative(d, 1.0 - amount);
    assert d * (1.0 - amount) == d - d * amount;
    assert Lerp(value1, value2, amount) == value1 + d * amount;
  }

  /** With the lower end at or below the upper, Lerp does not decrease in its amount. */
  lemma LerpMonotone(value1: real, value2: real, a: real, b: real)
    requires value1 <= value2
    requires a <= b
    ensures Lerp(value1, value2, a) <= Lerp(value1, value2, b)
  {
    MulNonNegative(value2 - value1, b - a);
    assert (value2 - value1) * b - (value2 - value1) * a == (value2 - value1) * (b - a);
  }

  lemma MulNonNegative(x: real, y: real)
    requires 0.0 <= x && 0.0 <= y
    ensures 0.0 <= x * y
  {
  }

  lemma MulPositive(x: real, y: real)
    requires 0.0 < x && 0.0 < y
    ensures 0.0 < x * y
  {
  }

  lemma MulLess(x: real, y: real, k: real)
    requires x < y && 0.0 < k
    ensures x * k < y * k
  {
    MulPositive(y - x, k);
    assert (y - x) * k == y * k - x * k;
  }

  /** A square, named by a variable, is positive when its root is. */
  lemma SquarePositive(r: real, s: real)
    requires r > 0.0 && s == r * r
    ensures s > 0.0
  {
    calc {
      s;
    ==
      r * r;
    >  { MulPositive(r, r); }
      0.0;
    }
  }

  lemma DivSelf(b: real)
    requires b != 0.0
    ensures b / b == 1.0
  {
  }

  lemma QuotientInUnit(a: real, b: real)
    requires 0.0 <= a <= b && 0.0 < b
    ensures 0.0 <= a / b <= 1.0
  {
    var q := a / b;
    assert q * b == a;
    if q > 1.0 {
      MulLess(1.0, q, b);
    }
  }

  lemma QuotientAboveOne(a: real, b: real)
    requires 0.0 < b < a
    ensures a / b > 1.0
  {
    var q := a / b;
    assert q * b == a;
    if q <= 1.0 {
      if q < 1.0 {
        MulLess(q, 1.0, b);
      }
      assert false;
    }
  }

  /** The C# cast `(int)f` from a float: truncation toward zero. */
  function TruncateToInt(x: real): (r: int)
    ensures x >= 0.0 ==> r == x.Floor
    ensures x < 0.0 ==> -r == (-x).Floor
    ensures (r as real) <= x < (r as real) + 1.0 || (r as real) - 1.0 < x <= (r as real)
  {
    if x >= 0.0 then x.Floor else -((-x).Floor)
  }

  /** C# `a % n` for `n > 0`: the remainder of truncated division, which takes
      the sign of `a` (so -7 % 3 == -1, where Dafny's `%` gives 2). */
  function CSharpRem(a: int, n: int): (r: int)
    requires n > 0
    ensures a >= 0 ==> 0 <= r < n
    ensures a < 0 ==> -n < r <= 0
    ensures -n < a < n ==> r == a
    ensures a == n * TruncQuot(a, n) + r
  {
    if a >= 0 then
      ModOfNat(a, n);
      a % n
    else
      ModOfNat(-a, n);
      assert -a == n * ((-a) / n) + (-a) % n;
      -((-a) % n)
  }

  /** C#'s `/` on integers: the quotient rounded toward zero. */
  function TruncQuot(a: int, n: int): int
    requires n > 0
  {
    if a >= 0 then a / n else -((-a) / n)
  }

  /** Dafny's `%` on a natural number: in range, and the identity on `[0,n)`. */
  lemma ModOfNat(a: int, n: int)
    requires 0 <= a && 0 < n
    ensures 0 <= a % n < n
    ensures a < n ==> a % n == a
  {
    if a < n {
      assert a == n * 0 + a;
    }
  }

  /** The position of the first occurrence of `x` in `s`. */
  function IndexOf<T(==)>(s: seq<T>, x: T): (i: nat)
    requires x in s
    ensures i < |s| && s[i] == x && x !in s[..i]
  {
    if s[0] == x then 0 else 1 + IndexOf(s[1..], x)
  }

  /** `List<T>.Remove(x)`: removes the first occurrence of `x`, if any. */
  function RemoveFirst<T(==)>(s: seq<T>, x: T): (r: seq<T>)
    ensures x !in s ==> r == s
    ensures x in s ==> |r| == |s| - 1 && multiset(r) == multiset(s) - multiset{x}
    ensures x in s ==> exists i :: 0 <= i < |s| && s[i] == x && x !in s[..i] && r == s[..i] + s[i + 1..]
  {
    if x in s then
      var i := IndexOf(s, x);
      assert s == s[..i] + [s[i]] + s[i + 1..];
      s[..i] + s[i + 1..]
    else
      s
  }
}
