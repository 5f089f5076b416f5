/** The pen: a radial brush that adds a smooth-step weighted offset to every
    grid cell within `Radius` of its centre. */
module Brush {
  import opened Platform
  import opened MathUtil

  /** The grid a pen draws on. The source writes against an `IArray2D`
      interface (`GetWidth`, `GetHeight`, `GetValue(x, y)`, `SetValue(x, y, v)`)
      whose implementation is not part of this model; here it is a
      two-dimensional array indexed `[y, x]`, x being the column and y the row. */
  class Surface {
    const cells: array2<real>

    constructor (width: nat, height: nat, value: real)
      ensures fresh(cells)
      ensures cells.Length0 == height && cells.Length1 == width
      ensures forall y, x :: 0 <= y < height && 0 <= x < width ==> cells[y, x] == value
    {
      cells := new real[height, width]((_, _) => value);
    }

    function GetWidth(): int
    {
      cells.Length1
    }

    function GetHeight(): int
    {
      cells.Length0
    }

    function GetValue(x: int, y: int): real
      reads cells
      requires 0 <= x < GetWidth() && 0 <= y < GetHeight()
    {
      cells[y, x]
    }

    method SetValue(x: int, y: int, value: real)
      requires 0 <= x < GetWidth() && 0 <= y < GetHeight()
      modifies cells
      ensures cells[y, x] == value && GetValue(x, y) == value
      ensures forall r, c :: 0 <= r < cells.Length0 && 0 <= c < cells.Length1 && (r != y || c != x)
                ==> cells[r, c] == old(cells[r, c])
    {
      cells[y, x] := value;
    }
  }

  /** Squared distance from the pen position to cell (x, y). */
  function Dist2(position: Vector2, x: int, y: int): (d2: real)
    ensures d2 >= 0.0
  {
    LengthSquared(Vector2(position.X - x as real, position.Y - y as real))
  }

  /** Whether cell (x, y) lies within the circular footprint. */
  predicate InDisc(position: Vector2, radius: real, x: int, y: int)
  {
    Dist2(position, x, y) <= radius * radius
  }

  /** What the pen adds to a cell at squared distance `d2`:
      `Lerp(min, max, 1 - smoothstep(d2 / radius^2))`. */
  function Offset(min: real, max: real, radius: real, d2: real): real
    requires radius > 0.0
  {
    Lerp(min, max, 1.0 - SmoothStepAt(d2 / (radius * radius)))
  }

  /** The lower end of the scanned range on one axis: `(int)(0.5 + c - radius)`,
      raised to 0. */
  function LowerBound(c: real, radius: real): int
  {
    var lo := TruncateToInt(0.5 + c - radius);
    if lo < 0 then 0 else lo
  }

  /** The upper end on one axis: `(int)(c + radius)`, lowered to `size - 1`. */
  function UpperBound(c: real, radius: real, size: int): int
  {
    var hi := TruncateToInt(c + radius);
    if hi > size - 1 then size - 1 else hi
  }

  /** At the exact centre the pen adds `Max`. */
  lemma OffsetAtCentre(min: real, max: real, radius: real)
    requires radius > 0.0
    ensures Offset(min, max, radius, 0.0) == max
  {
    SmoothStepEndpoints();
    LerpEndpoints(min, max);
  }

  /** On the rim the pen adds `Min`. */
  lemma OffsetAtRim(min: real, max: real, radius: real)
    requires radius > 0.0
    ensures Offset(min, max, radius, radius * radius) == min
  {
    SquareDivSelf(radius);
    SmoothStepEndpoints();
    LerpEndpoints(min, max);
  }

  /** Inside the footprint, with `Min <= Max`, the offset lies in [Min, Max]. */
  lemma OffsetWithinPressure(min: real, max: real, radius: real, d2: real)
    requires radius > 0.0
    requires min <= max
    requires 0.0 <= d2 <= radius * radius
    ensures min <= Offset(min, max, radius, d2) <= max
  {
    SquareQuotient(d2, radius);
    SmoothStepUnit(d2 / (radius * radius));
    LerpBetween(min, max, 1.0 - SmoothStepAt(d2 / (radius * radius)));
  }

  /** With `Min <= Max`, a cell nearer the centre receives at least as much
      as a cell farther out. */
  lemma OffsetRadiallyMonotone(min: real, max: real, radius: real, near: real, far: real)
    requires radius > 0.0
    requires min <= max
    requires 0.0 <= near <= far <= radius * radius
    ensures Offset(min, max, radius, far) <= Offset(min, max, radius, near)
  {
    SquareQuotient(near, radius);
    SquareQuotient(far, radius);
    SquareQuotientMonotone(near, far, radius);
    SmoothStepMonotone(near / (radius * radius), far / (radius * radius));
    LerpMonotone(min, max, 1.0 - SmoothStepAt(far / (radius * radius)), 1.0 - SmoothStepAt(near / (radius * radius)));
  }

  lemma SquareDivSelf(r: real)
    requires r > 0.0
    ensures (r * r) / (r * r) == 1.0
  {
    var s := r * r;
    SquarePositive(r, s);
    DivSelf(s);
  }

  lemma SquareQuotient(a: real, r: real)
    requires r > 0.0 && 0.0 <= a <= r * r
    ensures 0.0 <= a / (r * r) <= 1.0
  {
    var s := r * r;
    SquarePositive(r, s);
    QuotientInUnit(a, s);
  }

  lemma SquareQuotientMonotone(a: real, c: real, r: real)
    requires r > 0.0 && a <= c
    ensures a / (r * r) <= c / (r * r)
  {
    var s := r * r;
    SquarePositive(r, s);
  }

  lemma WithinRadiusNonNegative(a: real, radius: real)
    requires radius > 0.0 && a >= 0.0
    requires a * a <= radius * radius
    ensures a <= radius
  {
    if a > radius {
      MulLess(radius, a, a);
      MulLess(radius, a, radius);
    }
  }

  /** A coordinate difference whose square is at most `radius^2` is at most
      `radius` in magnitude. */
  lemma WithinRadius(a: real, radius: real)
    requires radius > 0.0
    requires a * a <= radius * radius
    ensures -radius <= a <= radius
  {
    if a >= 0.0 {
      WithinRadiusNonNegative(a, radius);
    } else {
      var b := -a;
      calc {
        b * b;
      ==
        a * a;
      <=
        radius * radius;
      }
      WithinRadiusNonNegative(b, radius);
    }
  }

  lemma AxisWithinRadius(position: Vector2, radius: real, x: int, y: int)
    requires radius > 0.0
    requires InDisc(position, radius, x, y)
    ensures -radius <= position.X - x as real <= radius
    ensures -radius <= position.Y - y as real <= radius
  {
    var dx, dy := position.X - x as real, position.Y - y as real;
    SquareNonNegative(dx);
    SquareNonNegative(dy);
    WithinRadius(dx, radius);
    WithinRadius(dy, radius);
  }

  /** The clipped box scans every grid cell within the footprint: the `+0.5`
      and the truncating casts never cut off a cell that is within `radius`. */
  lemma AxisBoundsCover(c: real, radius: real, size: int, k: int)
    requires 0 <= k < size
    requires -radius <= c - k as real <= radius
    ensures LowerBound(c, radius) <= k <= UpperBound(c, radius, size)
  {
    var lo := 0.5 + c - radius;
    if lo >= 0.0 {
      assert lo.Floor as real <= lo <= k as real + 0.5;
      assert lo.Floor <= k;
    }
    var hi := c + radius;
    assert hi >= k as real >= 0.0;
    assert hi.Floor >= k;
  }

  lemma BoxCoversDisc(position: Vector2, radius: real, width: int, height: int, x: int, y: int)
    requires radius > 0.0
    requires 0 <= x < width && 0 <= y < height
    requires InDisc(position, radius, x, y)
    ensures LowerBound(position.X, radius) <= x <= UpperBound(position.X, radius, width)
    ensures LowerBound(position.Y, radius) <= y <= UpperBound(position.Y, radius, height)
  {
    AxisWithinRadius(position, radius, x, y);
    AxisBoundsCover(position.X, radius, width, x);
    AxisBoundsCover(position.Y, radius, height, y);
  }

  /** A disc lying wholly off the grid, past any one of its four sides, adds
      nothing to any cell, although the truncating cast turns a negative upper
      bound such as -0.5 into column 0. */
  lemma DiscOffGridTouchesNothing(min: real, max: real, position: Vector2, radius: real, width: int, height: int)
    requires radius > 0.0
    requires position.X + radius < 0.0 || position.X - radius > (width - 1) as real || position.Y + radius < 0.0 || position.Y - radius > (height - 1) as real
    ensures forall x, y :: 0 <= x < width && 0 <= y < height ==> Gain(min, max, radius, position, x, y) == 0.0
  {
    forall x, y | 0 <= x < width && 0 <= y < height
      ensures Gain(min, max, radius, position, x, y) == 0.0
    {
      if InDisc(position, radius, x, y) {
        AxisWithinRadius(position, radius, x, y);
      }
    }
  }

  /** What `Draw` adds to cell (x, y): the offset inside the footprint,
      nothing outside it. */
  function Gain(min: real, max: real, radius: real, position: Vector2, x: int, y: int): real
    requires radius > 0.0
  {
    if InDisc(position, radius, x, y) then Offset(min, max, radius, Dist2(position, x, y)) else 0.0
  }

  /** The pen. `Radius`, `Min` and `Max` are public fields the caller tunes
      between strokes. */
  class Pen {
    var Radius: real
    var Max: real
    var Min: real

    constructor (radius: real, min: real, max: real)
      ensures Radius == radius && Min == min && Max == max
    {
      Radius := radius;
      Min := min;
      Max := max;
    }

    /** `Draw(array, position)` (the grid parameter is `surface` here): every
        grid cell within `Radius` of `position` gains `Offset(Min, Max, Radius, d2)`
        exactly once; every other cell keeps its value. The source divides by
        `Radius * Radius`, hence `Radius > 0`. */
    method Draw(surface: Surface, position: Vector2)
      requires Radius > 0.0
      modifies surface.cells
      ensures forall y, x :: 0 <= y < surface.GetHeight() && 0 <= x < surface.GetWidth() ==>
        surface.cells[y, x] == old(surface.cells[y, x]) + Gain(Min, Max, Radius, position, x, y)
    {
      var width, height := surface.GetWidth(), surface.GetHeight();
      var minX := LowerBound(position.X, Radius);
      var minY := LowerBound(position.Y, Radius);
      var maxX := UpperBound(position.X, Radius, width);
      var maxY := UpperBound(position.Y, Radius, height);

      // y is the row, x the column
      var y := minY;
      while y <= maxY
        invariant minY <= y && (y <= maxY + 1 || y == minY)
        invariant forall r, c :: 0 <= r < height && 0 <= c < width && minY <= r < y && minX <= c <= maxX ==>
          surface.cells[r, c] == old(surface.cells[r, c]) + Gain(Min, Max, Radius, position, c, r)
        invariant forall r, c :: 0 <= r < height && 0 <= c < width && !(minY <= r < y && minX <= c <= maxX) ==>
          surface.cells[r, c] == old(surface.cells[r, c])
      {
        DrawRow(surface, position, y, minX, maxX);
        y := y + 1;
      }

      forall r, c | 0 <= r < height && 0 <= c < width && InDisc(position, Radius, c, r)
        ensures minY <= r <= maxY && minX <= c <= maxX
      {
        BoxCoversDisc(position, Radius, width, height, c, r);
      }
    }

    /** One pass of the inner loop of `Draw`: row `y`, columns `minX..maxX`. */
    method DrawRow(surface: Surface, position: Vector2, y: int, minX: int, maxX: int)
      requires Radius > 0.0
      requires 0 <= y < surface.GetHeight() && 0 <= minX && maxX < surface.GetWidth()
      modifies surface.cells
      ensures forall r, c :: 0 <= r < surface.GetHeight() && 0 <= c < surface.GetWidth() && r == y && minX <= c <= maxX ==>
        surface.cells[r, c] == old(surface.cells[r, c]) + Gain(Min, Max, Radius, position, c, r)
      ensures forall r, c :: 0 <= r < surface.GetHeight() && 0 <= c < surface.GetWidth() && !(r == y && minX <= c <= maxX) ==>
        surface.cells[r, c] == old(surface.cells[r, c])
    {
      var x := minX;
      while x <= maxX
        invariant minX <= x && (x <= maxX + 1 || x == minX)
        invariant forall c :: minX <= c < x && c <= maxX ==>
          surface.cells[y, c] == old(surface.cells[y, c]) + Gain(Min, Max, Radius, position, c, y)
        invariant forall r, c :: 0 <= r < surface.GetHeight() && 0 <= c < surface.GetWidth() && !(r == y && minX <= c < x) ==>
          surface.cells[r, c] == old(surface.cells[r, c])
      {
        var dist2 := LengthSquared(Vector2(position.X - x as real, position.Y - y as real));
        assert dist2 == Dist2(position, x, y);
        // the source skips the cell with `continue` when it lies outside the disc
        if dist2 <= Radius * Radius {
          var offset := Offset(Min, Max, Radius, dist2);
          assert InDisc(position, Radius, x, y);
          assert offset == Gain(Min, Max, Radius, position, x, y);
          var initial := surface.GetValue(x, y);
          surface.SetValue(x, y, initial + offset);
        } else {
          assert Gain(Min, Max, Radius, position, x, y) == 0.0;
        }
        x := x + 1;
      }
    }
  }
}
