/** `Map`: the heat-map session. It owns the colour-map list and the
    selected colour map, remembers whether the cached textures are stale
    (`dirty`) and whether a background generation is running (`generating`).
    The GPU passes themselves are abstracted to "a render happened". */
module Session {
  import opened Platform
  import Grid
  import Brush

  /** A colour-map texture. The source compares textures by reference; the
      model gives each one an identity. */
  datatype ColorMap = ColorMap(id: nat)

  /** The two cached textures `GetTexture` hands out. */
  datatype TextureKind = ColoredTexture | IntensityTexture

  /** What `GetTexture` produces: a texture, or the index fault that
      `colorMaps[colorMapIndex]` raises while rendering. */
  datatype TextureResult = Texture(kind: TextureKind) | ColorMapIndexOutOfRange

  /** The uniforms `ApplyPen` hands to the intensity shader. */
  datatype PenParameters = PenParameters(pos: Vector2, radius: real, minPressure: real, maxPressure: real)

  function KindOf(colored: bool): TextureKind
  {
    if colored then ColoredTexture else IntensityTexture
  }

  function MaxInt(a: int, b: int): int
  {
    if a >= b then a else b
  }

  /** The value the `ColorMapIndex` setter stores when `count` colour maps
      are loaded: `value % count` under the truncated remainder, or 0 when
      there are none. */
  function IndexAfterSet(value: int, count: int): (r: int)
    requires count >= 0
    ensures count == 0 ==> r == 0
    ensures count > 0 && value >= 0 ==> 0 <= r < count
    ensures count > 0 && value < 0 ==> -count < r <= 0
    ensures -count < value < count ==> r == value
    ensures count > 0 ==> value == count * TruncQuot(value, count) + r
  {
    if count > 0 then CSharpRem(value, count) else 0
  }

  /** Storing the stored index again changes nothing. */
  lemma IndexAfterSetIdempotent(value: int, count: int)
    requires count >= 0
    ensures IndexAfterSet(IndexAfterSet(value, count), count) == IndexAfterSet(value, count)
  {
  }

  /** A negative value that is not a multiple of the count stays negative,
      so the next render faults. */
  lemma NegativeIndexIsNotRenderable(value: int, count: int)
    requires count > 0 && value < 0 && (-value) % count != 0
    ensures IndexAfterSet(value, count) < 0
  {
  }

  /** The uniforms of one pen stroke: the position scaled into texture space
      and the radius scaled by the larger dimension; the pressures pass
      through. */
  function PenShaderParameters(width: int, height: int, radius: real, min: real, max: real, position: Vector2): (p: PenParameters)
    requires width > 0 && height > 0
    ensures p.pos.X * (width as real) == position.X
    ensures p.pos.Y * (height as real) == position.Y
    ensures p.radius * (MaxInt(width, height) as real) == radius
    ensures p.minPressure == min && p.maxPressure == max
  {
    PenParameters(
      Vector2(position.X / (width as real), position.Y / (height as real)),
      radius / (MaxInt(width, height) as real),
      min, max)
  }

  /** Removing the selected colour map when it is the last one leaves the
      index one past the end: the setter is not re-run. */
  lemma RemoveSelectedLastLeavesIndexOutOfRange(maps: seq<ColorMap>, index: int)
    requires |maps| > 0 && index == |maps| - 1
    ensures !(0 <= index < |RemoveFirst(maps, maps[index])|)
  {
    assert maps[index] in maps;
  }

  class Map {
    const width: int
    const height: int
    var dirty: bool
    var generating: bool
    var colorMaps: seq<ColorMap>
    var colorMapIndex: int
    /** Completed `RenderTextures` passes, counted for the caching contracts. */
    ghost var renders: nat

    /** `CreateRenderTarget` refuses non-positive sizes, so every map has both
        dimensions positive. */
    ghost predicate Valid()
      reads this
    {
      width > 0 && height > 0
    }

    /** Whether `colorMaps[colorMapIndex]` can be read. */
    predicate CanRender(): (r: bool)
      reads this
      ensures r ==> colorMaps != []
    {
      0 <= colorMapIndex < |colorMaps|
    }

    /** `new Map(width, height)`: dirty, not generating, no colour maps, index 0. */
    constructor (width: int, height: int)
      requires width > 0 && height > 0
      ensures Valid()
      ensures this.width == width && this.height == height
      ensures dirty && !generating
      ensures colorMaps == [] && colorMapIndex == 0
      ensures renders == 0
    {
      this.width := width;
      this.height := height;
      dirty := true;
      generating := false;
      colorMaps := [];
      colorMapIndex := 0;
      renders := 0;
    }

    /** `IsGenerating`. */
    function IsGenerating(): bool
      reads this
    {
      generating
    }

    /** The `ColorMapIndex` getter. */
    function ColorMapIndex(): int
      reads this
    {
      colorMapIndex
    }

    /** The `ColorMapIndex` setter: wraps the value by the number of colour
        maps and always marks the textures stale. */
    method SetColorMapIndex(value: int)
      modifies this
      ensures colorMapIndex == IndexAfterSet(value, |colorMaps|)
      ensures dirty
      ensures colorMaps == old(colorMaps) && generating == old(generating) && renders == old(renders)
    {
      var nColorMaps := |colorMaps|;
      if nColorMaps > 0 {
        colorMapIndex := CSharpRem(value, |colorMaps|);
      } else {
        colorMapIndex := 0;
      }
      dirty := true;
    }

    /** `RenderTextures`: both passes, then the textures are fresh. The read of
        `colorMaps[colorMapIndex]` faults when the index is out of range, and
        the textures stay stale. */
    method RenderTextures() returns (ok: bool)
      modifies this
      ensures ok <==> CanRender()
      ensures ok ==> !dirty && renders == old(renders) + 1
      ensures !ok ==> dirty == old(dirty) && renders == old(renders)
      ensures colorMaps == old(colorMaps) && colorMapIndex == old(colorMapIndex) && generating == old(generating)
    {
      if !(0 <= colorMapIndex < |colorMaps|) {
        return false;
      }
      var colorMap := colorMaps[colorMapIndex];
      renders := renders + 1;
      dirty := false;
      ok := true;
    }

    /** `GetTexture(colored)`: renders only when the textures are stale. */
    method GetTexture(colored: bool) returns (r: TextureResult)
      modifies this
      ensures !old(dirty) ==> r == Texture(KindOf(colored)) && !dirty && renders == old(renders)
      ensures old(dirty) && old(CanRender()) ==> r == Texture(KindOf(colored)) && !dirty && renders == old(renders) + 1
      ensures old(dirty) && !old(CanRender()) ==> r == ColorMapIndexOutOfRange && dirty && renders == old(renders)
      ensures colorMaps == old(colorMaps) && colorMapIndex == old(colorMapIndex) && generating == old(generating)
    {
      if dirty {
        var ok := RenderTextures();
        if !ok {
          return ColorMapIndexOutOfRange;
        }
      }
      r := Texture(KindOf(colored));
    }

    /** `ApplyPen(pen, position)`: hands the scaled stroke to the shader and
        marks the textures stale. */
    method ApplyPen(pen: Brush.Pen, position: Vector2) returns (p: PenParameters)
      requires Valid()
      modifies this
      ensures p == PenShaderParameters(width, height, pen.Radius, pen.Min, pen.Max, position)
      ensures dirty
      ensures colorMaps == old(colorMaps) && colorMapIndex == old(colorMapIndex)
      ensures generating == old(generating) && renders == old(renders)
    {
      var pos := Vector2(position.X / (width as real), position.Y / (height as real));
      p := PenParameters(pos, pen.Radius / (MaxInt(width, height) as real), pen.Min, pen.Max);
      dirty := true;
    }

    /** `GenerateRandomHeight`: a no-op while a generation runs; otherwise it
        marks the map as generating and hands a zeroed `width` by `height`
        grid to the generator, whose completion is `CompleteGeneration`. */
    method GenerateRandomHeight() returns (job: Option<Grid.Array2D>)
      requires Valid()
      modifies this
      ensures old(generating) ==> job == None && generating
      ensures !old(generating) ==> job.Some? && fresh(job.value) && generating
      ensures job.Some? ==> job.value.Valid() && job.value.width == width && job.value.height == height
      ensures job.Some? ==> job.value.Cells() == seq(width * height, _ => 0.0)
      ensures dirty == old(dirty) && colorMaps == old(colorMaps) && colorMapIndex == old(colorMapIndex)
      ensures renders == old(renders)
    {
      if generating {
        return None;
      }
      generating := true;
      var grid := new Grid.Array2D(width, height, 0.0);
      job := Some(grid);
    }

    /** `GenerateRandomHeight` over the constructor as written: the flag is
        raised before `new Array2D` faults, and the fault comes before the
        completion callback exists, so nothing ever lowers the flag again. */
    method GenerateRandomHeightAsWritten() returns (fault: bool)
      requires Valid()
      modifies this
      ensures fault <==> !old(generating)
      ensures generating
      ensures dirty == old(dirty) && colorMaps == old(colorMaps) && colorMapIndex == old(colorMapIndex)
      ensures renders == old(renders)
    {
      if generating {
        return false;
      }
      generating := true;
      var built := Grid.ConstructAsWritten(width, height, 0.0);
      fault := built == Grid.NullReference;
    }

    /** The completion callback of `GenerateRandomHeight`: the new heights are
        uploaded, the textures become stale and generation is over. */
    method CompleteGeneration()
      modifies this
      ensures dirty && !generating
      ensures colorMaps == old(colorMaps) && colorMapIndex == old(colorMapIndex) && renders == old(renders)
    {
      dirty := true;
      generating := false;
    }

    /** `AddColorMap`: appends; the textures are not marked stale. */
    method AddColorMap(colorMap: ColorMap)
      modifies this
      ensures colorMaps == old(colorMaps) + [colorMap]
      ensures colorMapIndex == old(colorMapIndex) && dirty == old(dirty)
      ensures generating == old(generating) && renders == old(renders)
    {
      colorMaps := colorMaps + [colorMap];
    }

    /** `RemoveColorMap`: removes the first occurrence, if any, and leaves the
        index where it was. */
    method RemoveColorMap(colorMap: ColorMap)
      modifies this
      ensures colorMaps == RemoveFirst(old(colorMaps), colorMap)
      ensures colorMapIndex == old(colorMapIndex) && dirty == old(dirty)
      ensures generating == old(generating) && renders == old(renders)
    {
      colorMaps := RemoveFirst(colorMaps, colorMap);
    }
  }

  /** Selecting a colour map and rendering: the render faults exactly when no
      colour map is loaded or the value is a negative non-multiple of their
      number, which the truncated remainder leaves negative. */
  method RenderAfterSelect(m: Map, value: int) returns (ok: bool)
    modifies m
    ensures ok <==> |m.colorMaps| > 0 && (value >= 0 || (-value) % |m.colorMaps| == 0)
    ensures m.colorMaps == old(m.colorMaps)
  {
    m.SetColorMapIndex(value);
    ok := m.RenderTextures();
  }

  /** Two consecutive `GetTexture` calls render at most once, and the second
      never renders when the first succeeded. */
  method GetTextureTwice(m: Map, first: bool, second: bool) returns (r1: TextureResult, r2: TextureResult)
    modifies m
    ensures r1.Texture? ==> r2.Texture? && m.renders <= old(m.renders) + 1
    ensures r1.Texture? ==> !m.dirty
  {
    r1 := m.GetTexture(first);
    r2 := m.GetTexture(second);
  }

  /** A generation requested while one runs does not start another. */
  /** After the as-written request faults, every later request returns at
      once: no height map is ever generated. */
  method GenerationStuckAfterFault(m: Map) returns (fault: bool, job: Option<Grid.Array2D>)
    requires m.Valid()
    modifies m
    ensures !old(m.generating) ==> fault
    ensures job == None && m.generating
  {
    fault := m.GenerateRandomHeightAsWritten();
    job := m.GenerateRandomHeight();
  }

  method GenerateTwice(m: Map) returns (j1: Option<Grid.Array2D>, j2: Option<Grid.Array2D>)
    requires m.Valid()
    modifies m
    ensures j2 == None && m.generating
  {
    j1 := m.GenerateRandomHeight();
    j2 := m.GenerateRandomHeight();
  }
}
