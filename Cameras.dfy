/** The 2D camera: a mode state machine for locking onto a position or a
    target and transitioning between them, and a list of timed effects whose
    offsets are summed into the view transform. */
module Cameras {
  import opened Platform
  import MathUtil

  /** `CameraMode`. The `TtT` and `TtV` transitions are declared but never entered. */
  datatype CameraMode =
    | LockedPos
    | LockedTarget
    | VtTTransition
    | TtVTransition
    | TtTTransition
    | VtVTransition

  /** An `IPositionable`: something with a position. Its `GetPosition` is
      not part of this model and is passed to the camera as `positionOf`. */
  datatype Positionable = Positionable(id: nat)

  /** The five numbers `CameraEffect.Offsets` returns: x, y, rotation and the
      two scale offsets. */
  datatype Offsets = Offsets(x: real, y: real, rotation: real, scaleX: real, scaleY: real)

  const NoOffsets: Offsets := Offsets(0.0, 0.0, 0.0, 0.0, 0.0)

  function AddOffsets(a: Offsets, b: Offsets): Offsets
  {
    Offsets(a.x + b.x, a.y + b.y, a.rotation + b.rotation, a.scaleX + b.scaleX, a.scaleY + b.scaleY)
  }

  /** Which subclass of `CameraEffect` an effect is. For shake and bounce,
      `wave(t)` stands for `magFunction.At(t) * oscillateFunction.At(t)`, the
      decaying oscillation whose trigonometry is not part of this model. */
  datatype EffectKind =
    | PlainEffect
    | FlipEffect(flipX: bool, flipY: bool)
    | ShakeEffect(mag: real, wave: real -> real)
    | BounceEffect(mag: real, wave: real -> real)

  /** `CameraFlipEffect.adjust`. */
  const Adjust: real := -1.0

  /** `SetScale(k)` of the flip effect, on values: the selected axes are
      multiplied by `k`. */
  function FlipAxes(s: Vector2, flipX: bool, flipY: bool, k: real): Vector2
  {
    Vector2(if flipX then s.X * k else s.X, if flipY then s.Y * k else s.Y)
  }

  /** Flipping on construction and flipping back on `End` restores the scale. */
  lemma FlipRestoresScale(s: Vector2, flipX: bool, flipY: bool)
    ensures FlipAxes(FlipAxes(s, flipX, flipY, Adjust), flipX, flipY, 1.0 / Adjust) == s
  {
  }

  /** Flipping twice in the same direction also restores it, so an even number
      of flip effects on one axis cancels out. */
  lemma FlipBackIsFlip(s: Vector2, flipX: bool, flipY: bool)
    ensures FlipAxes(s, flipX, flipY, 1.0 / Adjust) == FlipAxes(s, flipX, flipY, Adjust)
  {
  }

  /** Whether an effect that is updated by `dt` is still active afterwards:
      it had to be active to be updated at all. */
  predicate SurvivesUpdate(elapsed: real, dur: real, dt: real)
  {
    dur > 0.0 && elapsed <= dur && elapsed + dt <= dur
  }

  class CameraEffect {
    var camera: Camera?
    var elapsed: real
    var dur: real
    const kind: EffectKind

    /** `t`: the fraction of the effect elapsed. */
    function T(): (r: real)
      reads this
      ensures 0.0 <= r <= 1.0
      ensures dur == 0.0 ==> r == 0.0
      ensures dur > 0.0 && 0.0 <= elapsed <= dur ==> r * dur == elapsed
    {
      if dur == 0.0 then 0.0
      else
        if dur > 0.0 && 0.0 <= elapsed <= dur then
          QuotientInUnit(elapsed, dur);
          assert (elapsed / dur) * dur == elapsed;
          MathUtil.Clamp(elapsed / dur, 0.0, 1.0)
        else
          MathUtil.Clamp(elapsed / dur, 0.0, 1.0)
    }

    /** `IsActive`: the effect has a duration that has not yet run out. An
        active effect that has started has `t` at its elapsed fraction; an
        effect with a duration stops being active only once `t` reaches 1. */
    predicate IsActive(): (r: bool)
      reads this
      ensures r && 0.0 <= elapsed ==> T() * dur == elapsed
      ensures !r && dur > 0.0 ==> T() == 1.0
      ensures dur == 0.0 ==> !r && T() == 0.0
    {
      if dur > 0.0 && dur < elapsed then
        QuotientAboveOne(elapsed, dur);
        false
      else
        dur > 0.0 && elapsed <= dur
    }

    /** `Offsets`: the base effect and the flip contribute nothing; a shake
        rotates; a bounce scales in proportion to the camera scale. */
    function OffsetsAt(scale: Vector2): Offsets
      reads this
    {
      match kind
      case PlainEffect => NoOffsets
      case FlipEffect(_, _) => NoOffsets
      case ShakeEffect(mag, wave) => Offsets(0.0, 0.0, mag * wave(T()), 0.0, 0.0)
      case BounceEffect(mag, wave) =>
        Offsets(0.0, 0.0, 0.0, scale.X * (mag * wave(T())), scale.Y * (mag * wave(T())))
    }

    /** `new CameraEffect(camera, dur)` and the shake and bounce constructors:
        the duration is given in milliseconds and stored in seconds. */
    constructor (camera: Camera, dur: real, kind: EffectKind)
      requires !kind.FlipEffect?
      ensures this.camera == camera && elapsed == 0.0 && this.dur == dur / 1000.0
      ensures this.kind == kind
    {
      elapsed := 0.0;
      this.camera := camera;
      this.dur := dur / 1000.0;
      this.kind := kind;
    }

    /** `new CameraFlipEffect(camera, dur, flipX, flipY)`: flips the selected
        axes of the camera scale at once. */
    constructor Flip(camera: Camera, dur: real, flipX: bool, flipY: bool)
      modifies camera
      ensures this.camera == camera && elapsed == 0.0 && this.dur == dur / 1000.0
      ensures kind == FlipEffect(flipX, flipY)
      ensures camera.scale == FlipAxes(old(camera.scale), flipX, flipY, Adjust)
      ensures camera.isTransformDirty
      ensures camera.Unscaled() == old(camera.Unscaled())
    {
      elapsed := 0.0;
      this.camera := camera;
      this.dur := dur / 1000.0;
      kind := FlipEffect(flipX, flipY);
      new;
      camera.SetScale(FlipAxes(camera.scale, flipX, flipY, Adjust));
    }

    /** `Update(dt)`. */
    method Update(dt: real)
      modifies this
      ensures elapsed == old(elapsed) + dt
      ensures dur == old(dur) && camera == old(camera)
    {
      elapsed := elapsed + dt;
    }

    /** `Reset()`. */
    method Reset()
      modifies this
      ensures elapsed == 0.0
      ensures dur == old(dur) && camera == old(camera)
    {
      elapsed := 0.0;
    }

    /** `End()`: a flip first scales its camera back, which faults once the
        camera has been cleared; then the timing is zeroed and the camera
        dropped. */
    method End() returns (ok: bool)
      modifies this, if camera == null then {} else {camera}
      ensures ok <==> !(kind.FlipEffect? && old(camera) == null)
      ensures ok ==> elapsed == 0.0 && dur == 0.0 && camera == null && !IsActive()
      ensures !ok ==> elapsed == old(elapsed) && dur == old(dur) && camera == old(camera)
      ensures ok && old(camera) != null && kind.FlipEffect? ==>
        old(camera).scale == FlipAxes(old(camera.scale), kind.flipX, kind.flipY, 1.0 / Adjust)
        && old(camera).isTransformDirty
      ensures ok && old(camera) != null && kind.FlipEffect? ==> old(camera).Unscaled() == old(camera.Unscaled())
      ensures old(camera) != null && !kind.FlipEffect? ==> unchanged(old(camera))
    {
      if kind.FlipEffect? {
        if camera == null {
          return false;
        }
        camera.SetScale(FlipAxes(camera.scale, kind.flipX, kind.flipY, 1.0 / Adjust));
      }
      elapsed, dur := 0.0, 0.0;
      camera := null;
      ok := true;
    }
  }

  /** The effects that stay in the list after `UpdateEffects(dt)`, in order. */
  ghost function Survivors(es: seq<CameraEffect>, dt: real): (r: seq<CameraEffect>)
    reads es
    ensures forall e :: e in r ==> e in es
  {
    if es == [] then []
    else
      var e := es[|es| - 1];
      var p := Survivors(es[..|es| - 1], dt);
      if SurvivesUpdate(e.elapsed, e.dur, dt) then p + [e] else p
  }

  lemma {:induction false} SurvivorSurvives(es: seq<CameraEffect>, dt: real, e: CameraEffect)
    requires e in Survivors(es, dt)
    ensures SurvivesUpdate(e.elapsed, e.dur, dt)
  {
    var p, x := es[..|es| - 1], es[|es| - 1];
    if e != x || !SurvivesUpdate(x.elapsed, x.dur, dt) {
      SurvivorSurvives(p, dt, e);
    }
  }

  /** The effects `UpdateEffects(dt)` ends and removes, in order. */
  ghost function Casualties(es: seq<CameraEffect>, dt: real): (r: seq<CameraEffect>)
    reads es
    ensures forall e :: e in r ==> e in es
  {
    if es == [] then []
    else
      var e := es[|es| - 1];
      var p := Casualties(es[..|es| - 1], dt);
      if SurvivesUpdate(e.elapsed, e.dur, dt) then p else p + [e]
  }

  /** Whether a list holds a flip, whose `End` marks the transform stale. */
  predicate HasFlip(es: seq<CameraEffect>)
  {
    exists e :: e in es && e.kind.FlipEffect?
  }

  /** One more effect holds a flip exactly when it is one or an earlier one
      was. */
  lemma HasFlipStep(es: seq<CameraEffect>, k: nat)
    requires k < |es|
    ensures HasFlip(es[..k + 1]) == (HasFlip(es[..k]) || es[k].kind.FlipEffect?)
  {
    assert es[..k + 1] == es[..k] + [es[k]];
  }

  /** The camera scale after ending the flips among `es`, in order. */
  function RestoreFlips(s: Vector2, es: seq<CameraEffect>): Vector2
  {
    if es == [] then s
    else
      var e := es[|es| - 1];
      var p := RestoreFlips(s, es[..|es| - 1]);
      if e.kind.FlipEffect? then FlipAxes(p, e.kind.flipX, e.kind.flipY, 1.0 / Adjust) else p
  }

  /** The component-wise sum `CalculateEffectOffsets` computes: active effects
      only. */
  function SumOffsets(es: seq<CameraEffect>, scale: Vector2): Offsets
    reads es
  {
    if es == [] then NoOffsets
    else
      var e := es[|es| - 1];
      var p := SumOffsets(es[..|es| - 1], scale);
      if e.IsActive() then AddOffsets(p, e.OffsetsAt(scale)) else p
  }

  /** Inactive effects contribute nothing to the sum. */
  lemma {:induction false} InactiveEffectsContributeNothing(es: seq<CameraEffect>, scale: Vector2)
    requires forall i :: 0 <= i < |es| ==> !es[i].IsActive()
    ensures SumOffsets(es, scale) == NoOffsets
  {
    if es != [] {
      InactiveEffectsContributeNothing(es[..|es| - 1], scale);
    }
  }

  /** Adding an inactive effect to the list leaves the sum unchanged. */
  lemma AppendInactiveEffect(es: seq<CameraEffect>, e: CameraEffect, scale: Vector2)
    requires !e.IsActive()
    ensures SumOffsets(es + [e], scale) == SumOffsets(es, scale)
  {
    assert (es + [e])[..|es|] == es;
  }

  predicate Distinct<T(==)>(s: seq<T>)
  {
    forall i, j :: 0 <= i < j < |s| ==> s[i] != s[j]
  }

  /** The elements of `s` not listed in `d`, in order. */
  function Without<T(==)>(s: seq<T>, d: seq<T>): (r: seq<T>)
    ensures forall i :: 0 <= i < |r| ==> r[i] in s && r[i] !in d
    ensures forall i :: 0 <= i < |s| && s[i] !in d ==> s[i] in r
  {
    if s == [] then []
    else
      var p := Without(s[..|s| - 1], d);
      var x := s[|s| - 1];
      assert forall i :: 0 <= i < |s| - 1 ==> s[i] == s[..|s| - 1][i];
      if x in d then p else p + [x]
  }

  lemma DistinctPrefix<T>(s: seq<T>, n: nat)
    requires Distinct(s) && n <= |s|
    ensures Distinct(s[..n])
  {
  }

  /** `List.Remove` of one more listed element of a list without duplicates
      is the filter by the longer list. */
  lemma {:induction false} RemoveFromWithout<T>(s: seq<T>, d: seq<T>, x: T)
    requires Distinct(s) && x in s && x !in d
    ensures RemoveFirst(Without(s, d), x) == Without(s, d + [x])
  {
    var n := |s|;
    var p, last := s[..n - 1], s[n - 1];
    assert s == p + [last];
    DistinctPrefix(s, n - 1);
    if last == x {
      assert x !in p;
      WithoutIgnoresAbsent(p, d, x);
      assert Without(s, d) == Without(p, d) + [x];
      assert Without(s, d + [x]) == Without(p, d + [x]);
      assert x !in Without(p, d);
      RemoveLast(Without(p, d), x);
    } else {
      assert x in p;
      RemoveFromWithout(p, d, x);
      if last in d {
        assert Without(s, d) == Without(p, d);
        assert Without(s, d + [x]) == Without(p, d + [x]);
      } else {
        assert Without(s, d) == Without(p, d) + [last];
        assert Without(s, d + [x]) == Without(p, d + [x]) + [last];
        RemoveBeforeLast(Without(p, d), last, x);
      }
    }
  }

  lemma {:induction false} WithoutIgnoresAbsent<T>(s: seq<T>, d: seq<T>, x: T)
    requires x !in s
    ensures Without(s, d + [x]) == Without(s, d)
  {
    if s != [] {
      WithoutIgnoresAbsent(s[..|s| - 1], d, x);
    }
  }

  lemma RemoveLast<T>(s: seq<T>, x: T)
    requires x !in s
    ensures RemoveFirst(s + [x], x) == s
  {
    assert x in s + [x];
    assert IndexOf(s + [x], x) == |s|;
    assert (s + [x])[..|s|] == s;
  }

  lemma RemoveBeforeLast<T>(s: seq<T>, y: T, x: T)
    requires x in s && x != y
    ensures RemoveFirst(s + [y], x) == RemoveFirst(s, x) + [y]
  {
    var i := IndexOf(s, x);
    assert x in s + [y];
    assert (s + [y])[..i] == s[..i];
    IndexOfPrefix(s, [y], x);
    assert (s + [y])[i + 1..] == s[i + 1..] + [y];
  }

  lemma {:induction false} IndexOfPrefix<T>(s: seq<T>, t: seq<T>, x: T)
    requires x in s
    ensures x in s + t && IndexOf(s + t, x) == IndexOf(s, x)
  {
    if s[0] != x {
      assert (s + t)[1..] == s[1..] + t;
      IndexOfPrefix(s[1..], t, x);
    }
  }

  /** Dropping position `i` shifts every later element down by one. */
  lemma DropIndex<T>(s: seq<T>, i: nat, r: seq<T>)
    requires i < |s| && r == s[..i] + s[i + 1..]
    ensures |r| == |s| - 1
    ensures forall k :: 0 <= k < |r| ==> r[k] == s[if k < i then k else k + 1]
  {
    forall k | 0 <= k < |r|
      ensures r[k] == s[if k < i then k else k + 1]
    {
      if k < i {
        assert r[k] == s[..i][k];
      } else {
        assert r[k] == s[i + 1..][k - i];
      }
    }
  }

  /** Dropping one position of a list without duplicates leaves a list
      without duplicates that no longer holds the dropped element. */
  lemma DropIndexDistinct<T>(s: seq<T>, i: nat, r: seq<T>)
    requires Distinct(s) && i < |s| && r == s[..i] + s[i + 1..]
    ensures Distinct(r) && s[i] !in r
    ensures forall k :: 0 <= k < |r| ==> r[k] in s
  {
    DropIndex(s, i, r);
    forall k | 0 <= k < |r|
      ensures r[k] != s[i] && r[k] in s
    {
      assert r[k] == s[if k < i then k else k + 1];
    }
    forall a, b | 0 <= a < b < |r|
      ensures r[a] != r[b]
    {
      assert r[a] == s[if a < i then a else a + 1];
      assert r[b] == s[if b < i then b else b + 1];
    }
  }

  /** `List.Remove` on a list without duplicates removes every occurrence
      and keeps the list free of duplicates. */
  lemma RemoveFirstDistinct<T>(s: seq<T>, x: T)
    requires Distinct(s)
    ensures Distinct(RemoveFirst(s, x)) && x !in RemoveFirst(s, x)
    ensures forall i :: 0 <= i < |RemoveFirst(s, x)| ==> RemoveFirst(s, x)[i] in s
  {
    if x in s {
      var i := IndexOf(s, x);
      DropIndexDistinct(s, i, s[..i] + s[i + 1..]);
    }
  }

  /** One step of the second loop of `UpdateEffects`: the next collected
      effect is still listed, removing it extends the filter by one, and its
      flip, if any, is undone last. */
  lemma CasualtyStep(s: seq<CameraEffect>, d: seq<CameraEffect>, k: nat)
    requires Distinct(s) && Distinct(d) && k < |d| && d[k] in s
    ensures d[k] in Without(s, d[..k])
    ensures RemoveFirst(Without(s, d[..k]), d[k]) == Without(s, d[..k + 1])
    ensures forall e :: e !in d[..k + 1] <==> e !in d[..k] && e != d[k]
    ensures forall v :: (RestoreFlips(v, d[..k + 1]) ==
      if d[k].kind.FlipEffect? then FlipAxes(RestoreFlips(v, d[..k]), d[k].kind.flipX, d[k].kind.flipY, 1.0 / Adjust)
      else RestoreFlips(v, d[..k]))
  {
    var x := d[k];
    assert d[..k + 1] == d[..k] + [x];
    assert d[..k + 1][..k] == d[..k];
    assert x !in d[..k];
    var at := IndexOf(s, x);
    assert s[at] !in d[..k];
    RemoveFromWithout(s, d[..k], x);
  }

  lemma {:induction false} WithoutNothing<T>(s: seq<T>)
    ensures Without(s, []) == s
  {
    if s != [] {
      WithoutNothing(s[..|s| - 1]);
    }
  }

  lemma {:induction false} WithoutDistinct<T>(s: seq<T>, d: seq<T>)
    requires Distinct(s)
    ensures Distinct(Without(s, d))
  {
    if s != [] {
      var p := s[..|s| - 1];
      DistinctPrefix(s, |s| - 1);
      WithoutDistinct(p, d);
      assert s[|s| - 1] !in p;
    }
  }

  lemma {:induction false} CasualtiesDistinct(es: seq<CameraEffect>, dt: real)
    requires Distinct(es)
    ensures Distinct(Casualties(es, dt))
  {
    if es != [] {
      var p := es[..|es| - 1];
      DistinctPrefix(es, |es| - 1);
      CasualtiesDistinct(p, dt);
      assert es[|es| - 1] !in p;
    }
  }

  /** Removing the casualties one by one from a list without duplicates
      leaves exactly the survivors, in their order. */
  lemma {:induction false} SurvivorsAreWithoutCasualties(es: seq<CameraEffect>, dt: real)
    requires Distinct(es)
    ensures Without(es, Casualties(es, dt)) == Survivors(es, dt)
  {
    if es != [] {
      var p, x := es[..|es| - 1], es[|es| - 1];
      assert es == p + [x];
      DistinctPrefix(es, |es| - 1);
      assert x !in p;
      SurvivorsAreWithoutCasualties(p, dt);
      if SurvivesUpdate(x.elapsed, x.dur, dt) {
        assert Casualties(es, dt) == Casualties(p, dt);
        assert x !in Casualties(p, dt);
      } else {
        assert Casualties(es, dt) == Casualties(p, dt) + [x];
        WithoutIgnoresAbsent(p, Casualties(p, dt), x);
      }
    }
  }

  /** The camera. Effects are distinct objects whose `camera` is this one. */
  class Camera {
    var isTransformDirty: bool
    var mode: CameraMode
    var target: Option<Positionable>
    var oldTarget: Option<Positionable>
    var targetPos: Vector2
    var oldTargetPos: Vector2
    var rotation: real
    var scale: Vector2
    var transitionTime: real
    var transitionRemaining: real
    var transitionPos: Vector2
    var lastFramePos: Vector2
    var dt: real
    var effects: seq<CameraEffect>

    ghost predicate Valid()
      reads this, effects
    {
      ValidBut(null)
    }

    /** The invariant, except that `exempt` may already have let go of its
        camera: the state between ending an effect and removing it. */
    ghost predicate ValidBut(exempt: CameraEffect?)
      reads this, effects
    {
      && (mode.LockedPos? || mode.LockedTarget? || mode.VtVTransition? || mode.VtTTransition?)
      && (mode.LockedTarget? || mode.VtTTransition? ==> target.Some?)
      && (transitionRemaining > 0.0 ==> transitionRemaining <= transitionTime)
      && Distinct(effects)
      && forall i :: 0 <= i < |effects| && effects[i] != exempt ==> effects[i].camera == this
    }

    /** Everything but the scale and the dirty flag, which the flip effects
        change. */
    ghost function Unscaled(): (CameraMode, Option<Positionable>, Option<Positionable>, Vector2, Vector2, real, real, real, Vector2, Vector2, real, seq<CameraEffect>)
      reads this
    {
      (mode, target, oldTarget, targetPos, oldTargetPos, rotation, transitionTime, transitionRemaining,
       transitionPos, lastFramePos, dt, effects)
    }

    /** The tracking state: the mode, the targets and the transition. */
    ghost function Tracking(): (CameraMode, Option<Positionable>, Option<Positionable>, Vector2, Vector2, real, real, Vector2)
      reads this
    {
      (mode, target, oldTarget, targetPos, oldTargetPos, transitionTime, transitionRemaining, transitionPos)
    }

    /** What the tracking methods never touch. */
    ghost function Framing(): (real, Vector2, Vector2, real, seq<CameraEffect>)
      reads this
    {
      (rotation, scale, lastFramePos, dt, effects)
    }

    /** What the effect methods never touch: all but the scale, the dirty
        flag and the effect list. */
    ghost function Placement(): (CameraMode, Option<Positionable>, Option<Positionable>, Vector2, Vector2, real, real, Vector2, real, Vector2, real)
      reads this
    {
      (mode, target, oldTarget, targetPos, oldTargetPos, transitionTime, transitionRemaining, transitionPos,
       rotation, lastFramePos, dt)
    }

    /** `new Camera(viewport, scale)`: locked on the origin, no effects. */
    constructor (scale: Vector2)
      ensures Valid()
      ensures mode == LockedPos && targetPos == Zero && lastFramePos == Zero
      ensures this.scale == scale && dt == 0.0 && effects == [] && isTransformDirty
      ensures transitionRemaining == 0.0 && target == None
    {
      dt := 0.0;
      this.scale := scale;
      mode := LockedPos;
      targetPos := Zero;
      lastFramePos := Zero;
      effects := [];
      isTransformDirty := true;
      target := None;
      oldTarget := None;
      oldTargetPos := Zero;
      rotation := 0.0;
      transitionTime := 0.0;
      transitionRemaining := 0.0;
      transitionPos := Zero;
    }

    /** The `Scale` setter. */
    method SetScale(value: Vector2)
      modifies this
      ensures scale == value && isTransformDirty
      ensures Unscaled() == old(Unscaled())
    {
      scale := value;
      isTransformDirty := true;
    }

    /** The `Rotation` setter. */
    method SetRotation(value: real)
      requires Valid()
      modifies this
      ensures Valid()
      ensures rotation == value && isTransformDirty
      ensures Tracking() == old(Tracking())
      ensures scale == old(scale) && lastFramePos == old(lastFramePos) && dt == old(dt) && effects == old(effects)
    {
      rotation := value;
      isTransformDirty := true;
    }

    /** `CurrentFramePosition`. */
    function CurrentFramePosition(positionOf: Positionable -> Vector2): Vector2
      reads this
      requires mode.LockedTarget? ==> target.Some?
    {
      match mode
      case LockedTarget => positionOf(target.value)
      case LockedPos => targetPos
      case _ => transitionPos
    }

    /** `DeltaFramePosition`. */
    function DeltaFramePosition(positionOf: Positionable -> Vector2): (r: Vector2)
      reads this
      requires mode.LockedTarget? ==> target.Some?
      ensures Add(lastFramePos, r) == CurrentFramePosition(positionOf)
    {
      Sub(CurrentFramePosition(positionOf), lastFramePos)
    }

    /** `AdvanceFrame`. */
    method AdvanceFrame(positionOf: Positionable -> Vector2)
      requires Valid()
      modifies this
      ensures Valid()
      ensures lastFramePos == old(CurrentFramePosition(positionOf))
      ensures DeltaFramePosition(positionOf) == Zero
      ensures Tracking() == old(Tracking()) && isTransformDirty == old(isTransformDirty)
      ensures rotation == old(rotation) && scale == old(scale) && dt == old(dt) && effects == old(effects)
    {
      lastFramePos := CurrentFramePosition(positionOf);
    }

    /** `UpdateTransition(elapsedTime)`. A locked camera is left alone. A
        transition counts down; when it runs out the camera locks onto its
        destination, otherwise it moves along the eased path between the
        start and the destination. `ease` stands for `x => Math.Pow(x, 0.5)`.
        Elapsed game time is never negative. */
    method UpdateTransition(elapsedTime: real, positionOf: Positionable -> Vector2, ease: real -> real)
      requires Valid() && elapsedTime >= 0.0
      modifies this
      ensures Valid()
      ensures old(mode).LockedPos? || old(mode).LockedTarget? ==> Unscaled() == old(Unscaled())
      ensures !(old(mode).LockedPos? || old(mode).LockedTarget?) ==>
        transitionRemaining == old(transitionRemaining) - elapsedTime
      ensures !(old(mode).LockedPos? || old(mode).LockedTarget?) && transitionRemaining <= 0.0 ==>
        mode == (if old(mode).VtTTransition? then LockedTarget else LockedPos) && transitionPos == old(transitionPos)
      ensures !(old(mode).LockedPos? || old(mode).LockedTarget?) && transitionRemaining <= 0.0 ==>
        CurrentFramePosition(positionOf) == (if old(mode).VtTTransition? then positionOf(target.value) else targetPos)
      ensures !(old(mode).LockedPos? || old(mode).LockedTarget?) && transitionRemaining > 0.0 ==>
        CurrentFramePosition(positionOf) == transitionPos
      ensures !(old(mode).LockedPos? || old(mode).LockedTarget?) && transitionRemaining > 0.0 ==>
        mode == old(mode) &&
        var finalPos := if mode.VtTTransition? then positionOf(target.value) else targetPos;
        transitionPos == Add(oldTargetPos, Scale(ease(1.0 - transitionRemaining / transitionTime), Sub(finalPos, oldTargetPos)))
      ensures target == old(target) && targetPos == old(targetPos)
      ensures oldTarget == old(oldTarget) && oldTargetPos == old(oldTargetPos)
      ensures transitionTime == old(transitionTime) && isTransformDirty == old(isTransformDirty)
      ensures Framing() == old(Framing())
    {
      if mode == LockedPos || mode == LockedTarget {
        return;
      }
      transitionRemaining := transitionRemaining - elapsedTime;
      if transitionRemaining <= 0.0 {
        // the new target is already stored in `target` or `targetPos`
        if mode == TtTTransition || mode == VtTTransition {
          mode := LockedTarget;
        } else {
          mode := LockedPos;
        }
      } else {
        // the TtT and TtV cases, which read `oldTarget`, are never entered
        var initialPos := oldTargetPos;
        var finalPos := if mode == VtTTransition then positionOf(target.value) else targetPos;
        var pctTransitionRemaining := transitionRemaining / transitionTime;
        var pctTransitionComplete := 1.0 - pctTransitionRemaining;
        var powerPctComplete := ease(pctTransitionComplete);
        var deltaPos := Sub(finalPos, initialPos);
        transitionPos := Add(initialPos, Scale(powerPctComplete, deltaPos));
      }
    }

    /** `FinishTransition`: the current destination becomes the start of any
        later transition, and no time remains. */
    method FinishTransition()
      requires Valid()
      modifies this
      ensures Valid()
      ensures oldTarget == target && oldTargetPos == targetPos
      ensures transitionPos == Zero && transitionRemaining == 0.0
      ensures mode == old(mode) && target == old(target) && targetPos == old(targetPos)
      ensures transitionTime == old(transitionTime) && isTransformDirty == old(isTransformDirty)
      ensures Framing() == old(Framing())
    {
      oldTarget := target;
      oldTargetPos := targetPos;
      transitionPos := Zero;
      transitionRemaining := 0.0;
    }

    /** `LockPosition(pos, immediate)`. Immediately: lock onto `pos` with no
        transition left. Otherwise: start a position-to-position transition
        from wherever the camera is now. */
    method LockPosition(pos: Vector2, immediate: bool, positionOf: Positionable -> Vector2)
      requires Valid()
      modifies this
      ensures Valid()
      ensures targetPos == pos && isTransformDirty
      ensures immediate ==> mode == LockedPos && transitionRemaining == 0.0 && transitionPos == Zero
      ensures immediate ==> CurrentFramePosition(positionOf) == pos
      ensures !immediate ==> CurrentFramePosition(positionOf) == old(transitionPos)
      ensures immediate ==> oldTargetPos == old(targetPos) && oldTarget == old(target)
      ensures !immediate ==> mode == VtVTransition && oldTargetPos == old(CurrentFramePosition(positionOf))
      ensures !immediate ==> transitionRemaining == old(transitionRemaining) && transitionPos == old(transitionPos)
      ensures !immediate ==> oldTarget == old(oldTarget)
      ensures target == old(target) && transitionTime == old(transitionTime)
      ensures Framing() == old(Framing())
    {
      if immediate {
        FinishTransition();
        mode := LockedPos;
        targetPos := pos;
      } else {
        if mode == LockedPos {
          oldTargetPos := targetPos;
        } else if mode == LockedTarget {
          oldTargetPos := positionOf(target.value);
        } else {
          oldTargetPos := transitionPos;
        }
        targetPos := pos;
        mode := VtVTransition;
      }
      isTransformDirty := true;
    }

    /** `LockTarget(target, immediate)`. Immediately: lock onto the target.
        Otherwise: start a position-to-target transition from where the
        camera is now, as `LockPosition` does. */
    method LockTarget(newTarget: Positionable, immediate: bool, positionOf: Positionable -> Vector2)
      requires Valid()
      modifies this
      ensures Valid()
      ensures target == Some(newTarget) && isTransformDirty
      ensures immediate ==> mode == LockedTarget && transitionRemaining == 0.0 && transitionPos == Zero
      ensures immediate ==> CurrentFramePosition(positionOf) == positionOf(newTarget)
      ensures !immediate ==> CurrentFramePosition(positionOf) == old(transitionPos)
      ensures immediate ==> oldTargetPos == old(targetPos) && oldTarget == old(target)
      ensures !immediate ==> mode == VtTTransition && oldTargetPos == old(CurrentFramePosition(positionOf))
      ensures !immediate ==> transitionRemaining == old(transitionRemaining) && transitionPos == old(transitionPos)
      ensures !immediate ==> oldTarget == old(oldTarget)
      ensures targetPos == old(targetPos) && transitionTime == old(transitionTime)
      ensures Framing() == old(Framing())
    {
      if immediate {
        FinishTransition();
        mode := LockedTarget;
        target := Some(newTarget);
      } else {
        if mode == LockedPos {
          oldTargetPos := targetPos;
        } else if mode == LockedTarget {
          oldTargetPos := positionOf(target.value);
        } else {
          oldTargetPos := transitionPos;
        }
        target := Some(newTarget);
        mode := VtTTransition;
      }
      isTransformDirty := true;
    }

    /** `LockTarget(target, immediate)` as the source writes it. Leaving
        `LockedTarget`, the start of the transition is read through the
        parameter, which shadows the field: it is the new target's position,
        so the camera jumps there instead of gliding from the old target. */
    method LockTargetAsWritten(newTarget: Positionable, immediate: bool, positionOf: Positionable -> Vector2)
      requires Valid()
      modifies this
      ensures Valid()
      ensures target == Some(newTarget) && isTransformDirty
      ensures !immediate ==> mode == VtTTransition
      ensures !immediate && old(mode).LockedTarget? ==> oldTargetPos == positionOf(newTarget)
      ensures !immediate && !old(mode).LockedTarget? ==> oldTargetPos == old(CurrentFramePosition(positionOf))
      ensures !immediate && old(mode).LockedTarget? && positionOf(newTarget) != positionOf(old(target).value) ==>
        oldTargetPos != old(CurrentFramePosition(positionOf))
      ensures Framing() == old(Framing())
    {
      if immediate {
        FinishTransition();
        mode := LockedTarget;
        target := Some(newTarget);
      } else {
        if mode == LockedPos {
          oldTargetPos := targetPos;
        } else if mode == LockedTarget {
          oldTargetPos := positionOf(newTarget);
        } else {
          oldTargetPos := transitionPos;
        }
        target := Some(newTarget);
        mode := VtTTransition;
      }
      isTransformDirty := true;
    }

    /** `TransitionTo(target, duration, immediate)`. */
    method TransitionToTarget(newTarget: Positionable, duration: real, immediate: bool, positionOf: Positionable -> Vector2)
      requires Valid()
      modifies this
      ensures Valid()
      ensures target == Some(newTarget) && isTransformDirty
      ensures immediate ==> mode == LockedTarget && transitionRemaining == 0.0 && transitionPos == Zero
      ensures immediate ==> oldTargetPos == old(targetPos) && oldTarget == old(target)
      ensures immediate ==> transitionTime == old(transitionTime)
      ensures !immediate ==> mode == VtTTransition && oldTargetPos == old(CurrentFramePosition(positionOf))
      ensures !immediate ==> transitionRemaining == duration && transitionTime == duration
      ensures !immediate ==> transitionPos == old(transitionPos) && oldTarget == old(oldTarget)
      ensures targetPos == old(targetPos)
      ensures Framing() == old(Framing())
    {
      LockTarget(newTarget, immediate, positionOf);
      if !immediate {
        transitionTime := duration;
        transitionRemaining := duration;
      }
    }

    /** `TransitionTo(pos, duration, immediate)`. */
    method TransitionToPosition(pos: Vector2, duration: real, immediate: bool, positionOf: Positionable -> Vector2)
      requires Valid()
      modifies this
      ensures Valid()
      ensures targetPos == pos && isTransformDirty
      ensures immediate ==> mode == LockedPos && transitionRemaining == 0.0 && transitionPos == Zero
      ensures immediate ==> oldTargetPos == old(targetPos) && oldTarget == old(target)
      ensures immediate ==> transitionTime == old(transitionTime)
      ensures !immediate ==> mode == VtVTransition && oldTargetPos == old(CurrentFramePosition(positionOf))
      ensures !immediate ==> transitionRemaining == duration && transitionTime == duration
      ensures !immediate ==> transitionPos == old(transitionPos) && oldTarget == old(oldTarget)
      ensures target == old(target)
      ensures Framing() == old(Framing())
    {
      LockPosition(pos, immediate, positionOf);
      if !immediate {
        transitionTime := duration;
        transitionRemaining := duration;
      }
    }

    /** `AddEffect(effect)`. */
    method AddEffect(effect: CameraEffect)
      requires Valid()
      requires effect.camera == this && effect !in effects
      modifies this
      ensures Valid()
      ensures effects == old(effects) + [effect] && isTransformDirty
      ensures Placement() == old(Placement()) && scale == old(scale)
    {
      effects := effects + [effect];
      isTransformDirty := true;
    }

    /** `UpdateEffects(elapsedTime)`: every active effect advances; every
        effect inactive afterwards is collected, then ended and removed. The
        survivors keep their order and are all active. */
    method UpdateEffects(elapsedTime: real) returns (deadEffects: seq<CameraEffect>)
      requires Valid()
      modifies this, effects
      ensures Valid()
      ensures effects == old(Survivors(effects, elapsedTime))
      ensures deadEffects == old(Casualties(effects, elapsedTime))
      ensures forall e :: e in effects ==> e.IsActive() && e.elapsed == old(e.elapsed) + elapsedTime && e.dur == old(e.dur)
      ensures forall e :: e in deadEffects ==> e.elapsed == 0.0 && e.dur == 0.0 && e.camera == null
      ensures scale == RestoreFlips(old(scale), deadEffects)
      ensures isTransformDirty == (old(isTransformDirty) || HasFlip(deadEffects))
      ensures Placement() == old(Placement())
    {
      ghost var effects0 := effects;
      ghost var survivors := Survivors(effects, elapsedTime);
      SurvivorsAreWithoutCasualties(effects, elapsedTime);
      CasualtiesDistinct(effects, elapsedTime);
      forall e | e in survivors
        ensures SurvivesUpdate(e.elapsed, e.dur, elapsedTime)
      {
        SurvivorSurvives(effects, elapsedTime, e);
      }
      deadEffects := TickEffects(elapsedTime);
      assert effects == effects0;
      assert forall e :: e in deadEffects ==> e in old(effects);
      EndCasualties(deadEffects);
      forall e | e in effects
        ensures e.IsActive() && e.elapsed == old(e.elapsed) + elapsedTime && e.dur == old(e.dur)
      {
        assert e in survivors && e in effects0 && e !in deadEffects;
      }
    }

    /** The first loop of `UpdateEffects`: each active effect is updated and
        each effect inactive afterwards is collected, in list order. */
    method TickEffects(elapsedTime: real) returns (deadEffects: seq<CameraEffect>)
      requires Valid()
      modifies effects
      ensures Valid()
      ensures deadEffects == old(Casualties(effects, elapsedTime))
      ensures forall e :: e in effects ==>
        (e.camera == old(e.camera) && e.dur == old(e.dur) &&
         e.elapsed == (if old(e.IsActive()) then old(e.elapsed) + elapsedTime else old(e.elapsed)))
    {
      deadEffects := [];
      for i := 0 to |effects|
        invariant forall j :: 0 <= j < i ==>
          (effects[j].elapsed ==
           if old(effects[j].IsActive()) then old(effects[j].elapsed) + elapsedTime else old(effects[j].elapsed))
        invariant forall j :: i <= j < |effects| ==> effects[j].elapsed == old(effects[j].elapsed)
        invariant forall j :: 0 <= j < |effects| ==> effects[j].dur == old(effects[j].dur) && effects[j].camera == this
        invariant deadEffects == old(Casualties(effects[..i], elapsedTime))
      {
        assert effects[..i + 1][..i] == effects[..i];
        var effect := effects[i];
        if effect.IsActive() {
          effect.Update(elapsedTime);
        }
        if !effect.IsActive() {
          deadEffects := deadEffects + [effect];
        }
      }
      assert effects[..|effects|] == effects;
    }

    /** The second loop of `UpdateEffects`: each collected effect is ended,
        then removed from the list. */
    method EndCasualties(deadEffects: seq<CameraEffect>)
      requires Valid()
      requires Distinct(deadEffects)
      requires forall i :: 0 <= i < |deadEffects| ==> deadEffects[i] in effects
      modifies this, set e | e in deadEffects
      ensures Valid()
      ensures effects == Without(old(effects), deadEffects)
      ensures scale == RestoreFlips(old(scale), deadEffects)
      ensures forall e :: e in deadEffects ==> e.elapsed == 0.0 && e.dur == 0.0 && e.camera == null
      ensures isTransformDirty == (old(isTransformDirty) || HasFlip(deadEffects))
      ensures Placement() == old(Placement())
    {
      ghost var effects0 := effects;
      WithoutNothing(effects);
      for k := 0 to |deadEffects|
        invariant Valid()
        invariant effects == Without(effects0, deadEffects[..k])
        invariant scale == RestoreFlips(old(scale), deadEffects[..k])
        invariant Placement() == old(Placement())
        invariant isTransformDirty == (old(isTransformDirty) || HasFlip(deadEffects[..k]))
        invariant forall j :: 0 <= j < k ==>
          deadEffects[j].elapsed == 0.0 && deadEffects[j].dur == 0.0 && deadEffects[j].camera == null
      {
        var effect := deadEffects[k];
        CasualtyStep(effects0, deadEffects, k);
        HasFlipStep(deadEffects, k);
        EndAndRemove(effect);
      }
      assert deadEffects[..|deadEffects|] == deadEffects;
    }

    /** One iteration of the second loop of `UpdateEffects`: `effect.End()`
        then `effects.Remove(effect)`. */
    method EndAndRemove(effect: CameraEffect)
      requires Valid() && effect in effects
      modifies this, effect
      ensures Valid()
      ensures effects == RemoveFirst(old(effects), effect) && effect !in effects
      ensures effect.elapsed == 0.0 && effect.dur == 0.0 && effect.camera == null
      ensures scale == (if effect.kind.FlipEffect? then FlipAxes(old(scale), effect.kind.flipX, effect.kind.flipY, 1.0 / Adjust) else old(scale))
      ensures isTransformDirty == (old(isTransformDirty) || effect.kind.FlipEffect?)
      ensures Placement() == old(Placement())
    {
      var ok := effect.End();
      RemoveFirstDistinct(effects, effect);
      effects := RemoveFirst(effects, effect);
    }

    /** `RemoveEffect(effect)`: ends the effect, removes it and marks the
        transform stale. Ending a flip whose camera is already cleared
        faults before anything is removed. */
    method RemoveEffect(effect: CameraEffect) returns (ok: bool)
      requires ValidBut(effect)
      requires effect.camera == null || effect.camera == this
      modifies this, effect
      ensures ok ==> Valid()
      ensures !ok ==> ValidBut(effect)
      ensures ok <==> !(effect.kind.FlipEffect? && old(effect.camera) == null)
      ensures ok ==> effects == RemoveFirst(old(effects), effect) && effect !in effects && isTransformDirty
      ensures ok ==> effect.elapsed == 0.0 && effect.dur == 0.0 && effect.camera == null
      ensures !ok ==> effects == old(effects) && isTransformDirty == old(isTransformDirty)
      ensures !ok ==> effect.elapsed == old(effect.elapsed) && effect.dur == old(effect.dur) && effect.camera == null
      ensures old(effect.camera) == this && effect.kind.FlipEffect? ==>
        scale == FlipAxes(old(scale), effect.kind.flipX, effect.kind.flipY, 1.0 / Adjust)
      ensures !(old(effect.camera) == this && effect.kind.FlipEffect?) ==> scale == old(scale)
      ensures Placement() == old(Placement())
    {
      ok := effect.End();
      if ok {
        DropEffect(effect);
      }
    }

    /** The tail of `RemoveEffect`: `effects.Remove(effect)` of an effect that
        has already let go of its camera, then the transform is stale. */
    method DropEffect(effect: CameraEffect)
      requires ValidBut(effect) && effect.camera == null
      modifies this
      ensures Valid()
      ensures effects == RemoveFirst(old(effects), effect) && effect !in effects && isTransformDirty
      ensures scale == old(scale) && Placement() == old(Placement())
    {
      RemoveFirstDistinct(effects, effect);
      effects := RemoveFirst(effects, effect);
      isTransformDirty := true;
    }

    /** `EndEffect(effect)` as the source writes it: `End()` and then
        `RemoveEffect`, which ends the effect a second time. For a flip the
        first call clears the camera, so the second faults: the effect stays
        in the list with no camera, and the flip has been undone. */
    method EndEffectAsWritten(effect: CameraEffect) returns (ok: bool)
      requires Valid() && effect in effects
      modifies this, effect
      ensures ok <==> !effect.kind.FlipEffect?
      ensures ok ==> Valid() && effects == RemoveFirst(old(effects), effect) && effect !in effects
      ensures !ok ==> effects == old(effects) && effect in effects && effect.camera == null && !Valid()
      ensures effect.elapsed == 0.0 && effect.dur == 0.0
      ensures scale == (if effect.kind.FlipEffect?
        then FlipAxes(old(scale), effect.kind.flipX, effect.kind.flipY, 1.0 / Adjust) else old(scale))
      ensures ok ==> isTransformDirty
      ensures Placement() == old(Placement())
    {
      ok := effect.End();
      ok := RemoveEffect(effect);
      if ok {
        isTransformDirty := true;
      } else {
        assert effects[IndexOf(effects, effect)].camera == null;
      }
    }

    /** `EndEffect(effect)` ending the effect once: it is removed, its flip
        undone, and the transform marked stale. An effect no longer listed is
        ended and `Remove` does nothing; a flip that was already ended has no
        camera left to restore and faults in `End`, as every second `End` of
        a flip does. */
    method EndEffect(effect: CameraEffect) returns (ok: bool)
      requires Valid()
      requires effect.camera == null || effect.camera == this
      modifies this, effect
      ensures ok <==> !(effect.kind.FlipEffect? && old(effect.camera) == null)
      ensures Valid()
      ensures ok ==> effects == RemoveFirst(old(effects), effect) && effect !in effects && isTransformDirty
      ensures ok ==> effect.elapsed == 0.0 && effect.dur == 0.0 && effect.camera == null
      ensures !ok ==> effects == old(effects) && isTransformDirty == old(isTransformDirty)
      ensures !ok ==> effect.elapsed == old(effect.elapsed) && effect.dur == old(effect.dur)
      ensures scale == (if effect.kind.FlipEffect? && old(effect.camera) != null
        then FlipAxes(old(scale), effect.kind.flipX, effect.kind.flipY, 1.0 / Adjust) else old(scale))
      ensures Placement() == old(Placement())
    {
      ok := RemoveEffect(effect);
      if ok {
        isTransformDirty := true;
      }
    }

    /** `CalculateEffectOffsets`: the sum of the offsets of the active effects. */
    method CalculateEffectOffsets() returns (offsets: Offsets)
      requires Valid()
      ensures offsets == SumOffsets(effects, scale)
    {
      offsets := NoOffsets;
      for i := 0 to |effects|
        invariant offsets == SumOffsets(effects[..i], scale)
      {
        assert effects[..i + 1][..i] == effects[..i];
        var effect := effects[i];
        if !effect.IsActive() {
          continue;
        }
        offsets := AddOffsets(offsets, effect.OffsetsAt(scale));
      }
      assert effects[..|effects|] == effects;
    }
  }
}
