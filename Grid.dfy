/** `Array2D`: a row-major grid of floats with a flat-index accessor, a
    constant fill on construction and min-max normalisation into a target
    range. */
module Grid {
  import opened Platform
  import opened MathUtil

  /** How a call to `Normalize` ended. */
  datatype NormalizeOutcome =
    | Normalized
      /** LINQ's `Min()` throws on an empty array, before any cell is written. */
    | EmptyGrid
      /** All cells are equal: the source divides 0 by 0 here. */
    | DegenerateRange

  /** The linear map sending `lo` to `min` and `hi` to `max`, as one loop
      iteration of `Normalize` computes it. */
  function Remap(v: real, lo: real, hi: real, min: real, max: real): real
    requires lo < hi
  {
    Lerp(min, max, (v - lo) / (hi - lo))
  }

  /** Whether normalisation is defined on these cells: it needs a smallest
      and a largest value that differ. */
  predicate HasRange(s: seq<real>)
  {
    |s| > 0 && SeqMin(s) < SeqMax(s)
  }

  /** The cells after `Normalize(min, max)`: every cell is remapped from the
      extremes measured once, before the loop. */
  function NormalizeCells(s: seq<real>, min: real, max: real): (r: seq<real>)
    requires HasRange(s)
    ensures |r| == |s|
  {
    var lo, hi := SeqMin(s), SeqMax(s);
    seq(|s|, i requires 0 <= i < |s| => Remap(s[i], lo, hi, min, max))
  }

  lemma QuotientMonotone(a: real, c: real, b: real)
    requires a <= c && 0.0 < b
    ensures a / b <= c / b
  {
  }

  /** The cells that held the old minimum end at `min`, those that held the
      old maximum end at `max`. */
  lemma NormalizeHitsTargets(s: seq<real>, min: real, max: real, i: nat)
    requires HasRange(s) && i < |s|
    ensures s[i] == SeqMin(s) ==> NormalizeCells(s, min, max)[i] == min
    ensures s[i] == SeqMax(s) ==> NormalizeCells(s, min, max)[i] == max
  {
    RemapEnds(SeqMin(s), SeqMax(s), min, max);
  }

  lemma RemapEnds(lo: real, hi: real, min: real, max: real)
    requires lo < hi
    ensures Remap(lo, lo, hi, min, max) == min
    ensures Remap(hi, lo, hi, min, max) == max
  {
    assert (lo - lo) / (hi - lo) == 0.0;
    assert (hi - lo) / (hi - lo) == 1.0;
    LerpEndpoints(min, max);
  }

  /** With a well-ordered target, every normalised cell lies in [min,max]. */
  lemma NormalizeWithinTarget(s: seq<real>, min: real, max: real, i: nat)
    requires HasRange(s) && i < |s|
    requires min <= max
    ensures min <= NormalizeCells(s, min, max)[i] <= max
  {
    var lo, hi := SeqMin(s), SeqMax(s);
    QuotientInUnit(s[i] - lo, hi - lo);
    LerpBetween(min, max, (s[i] - lo) / (hi - lo));
  }

  /** Normalising into a well-ordered target keeps the order of any two cells. */
  lemma NormalizeMonotone(s: seq<real>, min: real, max: real, i: nat, j: nat)
    requires HasRange(s) && i < |s| && j < |s|
    requires min <= max
    requires s[i] <= s[j]
    ensures NormalizeCells(s, min, max)[i] <= NormalizeCells(s, min, max)[j]
  {
    var lo, hi := SeqMin(s), SeqMax(s);
    QuotientMonotone(s[i] - lo, s[j] - lo, hi - lo);
    LerpMonotone(min, max, (s[i] - lo) / (hi - lo), (s[j] - lo) / (hi - lo));
  }

  /** Normalising cells already normalised into `[min,max]` (with `min < max`)
      changes nothing. */
  lemma NormalizeIdempotent(s: seq<real>, min: real, max: real)
    requires HasRange(s)
    requires min < max
    ensures HasRange(NormalizeCells(s, min, max))
    ensures NormalizeCells(NormalizeCells(s, min, max), min, max) == NormalizeCells(s, min, max)
  {
    var r := NormalizeCells(s, min, max);
    var iLo :| 0 <= iLo < |s| && s[iLo] == SeqMin(s);
    var iHi :| 0 <= iHi < |s| && s[iHi] == SeqMax(s);
    NormalizeHitsTargets(s, min, max, iLo);
    NormalizeHitsTargets(s, min, max, iHi);
    forall k | 0 <= k < |r| ensures min <= r[k] <= max {
      NormalizeWithinTarget(s, min, max, k);
    }
    assert SeqMin(r) == min;
    assert SeqMax(r) == max;
    forall k | 0 <= k < |r| ensures Remap(r[k], min, max, min, max) == r[k] {
      RemapIdentity(r[k], min, max);
    }
  }

  lemma RemapIdentity(v: real, min: real, max: real)
    requires min < max
    ensures Remap(v, min, max, min, max) == v
  {
    var d := max - min;
    assert ((v - min) / d) * d == v - min;
  }

  /** The grid. `data` holds `width * height` cells in row-major order. */
  class Array2D {
    const width: int
    const height: int
    const data: array<real>

    ghost predicate Valid()
    {
      0 <= width && 0 <= height && data.Length == width * height
    }

    /** The cells, in flat-index order. */
    ghost function Cells(): seq<real>
      reads data
    {
      data[..]
    }

    /** `new Array2D(width, height, initalValue)`. Unlike the source, the
        model allocates the `width * height` cells before filling them. */
    constructor (width: int, height: int, initalValue: real)
      requires 0 <= width && 0 <= height
      ensures Valid()
      ensures this.width == width && this.height == height
      ensures fresh(data)
      ensures Cells() == seq(width * height, _ => initalValue)
    {
      this.width := width;
      this.height := height;
      data := new real[width * height];
      new;
      Initialize(initalValue);
    }

    /** Fills every cell with `value`. */
    method Initialize(value: real)
      requires Valid()
      modifies data
      ensures Cells() == seq(width * height, _ => value)
    {
      var fault := FillCells(data, width * height, value);
    }

    /** The getter of `this[row, col]`: only the flat index is checked. */
    function Get(row: int, col: int): (r: real)
      reads data
      requires Valid()
      requires 0 <= width * row + col < width * height
      ensures r in Cells()
    {
      data[width * row + col]
    }

    /** The setter of `this[row, col]`. */
    method Set(row: int, col: int, value: real)
      requires Valid()
      requires 0 <= width * row + col < width * height
      modifies data
      ensures Get(row, col) == value
      ensures forall k :: 0 <= k < data.Length && k != width * row + col ==> data[k] == old(data[k])
      ensures Cells() == old(Cells())[width * row + col := value]
    {
      data[width * row + col] := value;
    }

    /** `Normalize(min, max)`: measures the extremes once, then remaps each
        cell from [dataMin, dataMax] onto [min, max] in place. */
    method Normalize(min: real, max: real) returns (outcome: NormalizeOutcome)
      requires Valid()
      modifies data
      ensures outcome == EmptyGrid <==> data.Length == 0
      ensures outcome == Normalized <==> HasRange(old(Cells()))
      ensures outcome == Normalized ==> Cells() == NormalizeCells(old(Cells()), min, max)
      ensures outcome != Normalized ==> Cells() == old(Cells())
    {
      if data.Length == 0 {
        return EmptyGrid;
      }
      var lo := SeqMin(data[..]);
      var hi := SeqMax(data[..]);
      var range := hi - lo;
      if range == 0.0 {
        return DegenerateRange;
      }
      for i := 0 to width * height
        invariant forall k :: 0 <= k < i ==> data[k] == Remap(old(data[k]), lo, hi, min, max)
        invariant forall k :: i <= k < data.Length ==> data[k] == old(data[k])
      {
        var t := (data[i] - lo) / range;
        data[i] := Lerp(min, max, t);
      }
      outcome := Normalized;
    }
  }

  /** Two coordinate pairs with the same flat index name the same cell: the
      accessor does not check `col < width`, so column `width + c` of row `r`
      is column `c` of row `r + 1`. */
  lemma ColumnOverflowWrapsToNextRow(g: Array2D, row: int, col: int)
    requires g.Valid()
    requires 0 <= g.width * (row + 1) + col < g.width * g.height
    ensures 0 <= g.width * row + (g.width + col) < g.width * g.height
    ensures g.Get(row, g.width + col) == g.Get(row + 1, col)
  {
    assert g.width * row + (g.width + col) == g.width * (row + 1) + col;
  }

  /** Within the columns, the flat index tells coordinate pairs apart: two
      in-range pairs name the same cell only when they are equal. */
  lemma FlatIndexInjective(width: int, r1: int, c1: int, r2: int, c2: int)
    requires 0 <= c1 < width && 0 <= c2 < width
    ensures width * r1 + c1 == width * r2 + c2 <==> r1 == r2 && c1 == c2
  {
    if r1 < r2 {
      RowStep(width, r1, r2);
    } else if r2 < r1 {
      RowStep(width, r2, r1);
    }
  }

  /** A later row starts at least one row length further on. */
  lemma RowStep(width: int, lo: int, hi: int)
    requires 0 < width && lo < hi
    ensures width * lo + width <= width * hi
  {
    var d := hi - lo - 1;
    assert width * hi == width * lo + width + width * d;
    IntMulNonNegative(width, d);
  }

  lemma IntMulNonNegative(a: int, b: int)
    requires 0 <= a && 0 <= b
    ensures 0 <= a * b
  {
  }

  /** How the source's constructor ends. */
  datatype ConstructionAsWritten = NullReference | BuiltWithoutStorage

  /** `Initialize(value)`'s loop over a storage reference that may be null:
      it writes `value` into the first `count` cells, and when the reference
      is null the first write faults. */
  method FillCells(data: array?<real>, count: int, value: real) returns (fault: bool)
    requires 0 <= count
    requires data != null ==> count <= data.Length
    modifies data
    ensures fault <==> data == null && 0 < count
    ensures data != null ==> forall k :: 0 <= k < count ==> data[k] == value
    ensures data != null ==> forall k :: count <= k < data.Length ==> data[k] == old(data[k])
  {
    fault := false;
    for i := 0 to count
      invariant data == null ==> i == 0
      invariant data != null ==> forall k :: 0 <= k < i ==> data[k] == value
      invariant data != null ==> forall k :: i <= k < data.Length ==> data[k] == old(data[k])
    {
      if data == null {
        // `data[i] = value` dereferences null
        return true;
      }
      data[i] := value;
    }
  }

  /** `new Array2D(width, height, initalValue)` as the source writes it: the
      dimensions are stored, `data` is never assigned and stays null, and
      `Initialize` runs its fill loop over it. */
  method ConstructAsWritten(width: int, height: int, initalValue: real) returns (r: ConstructionAsWritten)
    requires 0 <= width && 0 <= height
    ensures r == NullReference <==> 0 < width * height
    ensures 0 < width && 0 < height ==> r == NullReference
  {
    var data: array?<real> := null;
    var fault := FillCells(data, width * height, initalValue);
    r := if fault then NullReference else BuiltWithoutStorage;
    if 0 < width && 0 < height {
      assert width * height >= 1 * height;
    }
  }
}
