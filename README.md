# HeatMap core in Dafny

This project models the core of HeatMap, a small XNA program for painting and
viewing a height map:

- the `Array2D` grid, with its flat-index accessor, constant fill and min-max
  normalisation;
- the `Pen`, which adds a smooth-step, radially attenuated offset to the
  cells of a disc;
- the numeric helpers of `Util.cs`;
- the `Map` session: the stale-texture flag, the generation flag, and the
  colour-map list with its wrapped index;
- the `Camera`: its mode state machine across lock, transition and finish,
  the timing of its effects, the pruning of its effect list and the sum of
  effect offsets;
- the `Input` key-binding table, with replace-on-add semantics,
  exact-modifier matching, and press/release edge detection over the
  previous and the current device snapshots.

One Dafny module per source file, plus `Platform` for the .NET and XNA
semantics the source leans on:

| file | models |
|---|---|
| `Platform.dfy` | `Vector2`, `MathHelper.Lerp`, `float.MaxValue`, the C# `(int)` cast and `%` operator, `List<T>.Remove` |
| `MathUtil.dfy` | `Util.cs` |
| `Grid.dfy` | `Array2D.cs` |
| `Brush.dfy` | `Pen.cs`, and the grid interface `Pen.Draw` writes through |
| `Session.dfy` | `Map.cs` |
| `Cameras.dfy` | `Camera.cs` |
| `Controls.dfy` | `Input.cs` |

Floats are modelled as reals. Each place where the source divides by a value
that may be zero becomes either a precondition or an explicit error outcome.
Objects whose fields the source updates in place are classes. Loops are
`while`/`for` loops proved against specification functions (`NormalizeCells`,
`Gain`, `Survivors`/`Casualties`, `SumOffsets`).

Behaviour of the code that a reader might not expect, and that the model
keeps:

- At the centre of a stroke the pen adds `Max`, not `Min`, and at the rim it
  adds `Min`. This is because `pct = smoothstep(0) = 0` gives
  `Lerp(Min, Max, 1)`.
- The grid accessor checks only the flat index `width*row + col` (it is an
  array access). It does not check the row and column separately, and it
  never clamps the stored value. There is no clamping mode in the code at all.
- Normalising a constant grid divides 0 by 0 in the code, which gives NaN in
  floating point. The model ends with `DegenerateRange` instead and leaves the
  cells untouched.
  Likewise it ends with `EmptyGrid` where LINQ's `Min()` would throw.

## Model

| member | source | states |
|---|---|---|
| Grid.Array2D.constructor | HeatMap/HeatMap/HeatMap/Array2D.cs:35-40 | the dimensions are the arguments and all `width*height` cells hold the initial value; unlike the code, the storage is allocated (see Findings) |
| Grid.Array2D.Initialize | HeatMap/HeatMap/HeatMap/Array2D.cs:42-46 | afterwards every cell holds the value |
| Grid.Array2D.Get | HeatMap/HeatMap/HeatMap/Array2D.cs:28 | the indexer's getter reads the cell at flat index `width*row + col`, checking only that index; the value read is one of the stored cells |
| Grid.Array2D.Set | HeatMap/HeatMap/HeatMap/Array2D.cs:29-32 | reading `[row,col]` afterwards gives the value; every cell with another flat index is unchanged |
| Grid.ColumnOverflowWrapsToNextRow | HeatMap/HeatMap/HeatMap/Array2D.cs:28-31 | only the flat index is used: column `width+c` of row `r` is column `c` of row `r+1` |
| Grid.FlatIndexInjective | HeatMap/HeatMap/HeatMap/Array2D.cs:28 | within the columns, two coordinate pairs name the same cell only when they are equal |
| Grid.Array2D.Normalize | HeatMap/HeatMap/HeatMap/Array2D.cs:48-60 | empty grid and constant grid are reported and change nothing; otherwise every cell becomes `NormalizeCells` of the old cells, with the extremes measured once before the loop |
| Grid.NormalizeHitsTargets | HeatMap/HeatMap/HeatMap/Array2D.cs:50-58 | the cells holding the old minimum end at `min`, those holding the old maximum end at `max` |
| Grid.NormalizeWithinTarget | HeatMap/HeatMap/HeatMap/Array2D.cs:55-59 | with `min <= max`, every normalised cell lies in `[min,max]` |
| Grid.NormalizeMonotone | HeatMap/HeatMap/HeatMap/Array2D.cs:55-59 | with `min <= max`, normalisation keeps the order of any two cells |
| Grid.NormalizeIdempotent | HeatMap/HeatMap/HeatMap/Array2D.cs:48-60 | normalising into `[min,max]` twice gives the same cells as once |
| Grid.RemapEnds | HeatMap/HeatMap/HeatMap/Array2D.cs:57-58 | the per-cell map sends the old minimum to `min` and the old maximum to `max` |
| Grid.RemapIdentity | HeatMap/HeatMap/HeatMap/Array2D.cs:57-58 | remapping `[min,max]` onto itself is the identity |
| Grid.NormalizeCells | HeatMap/HeatMap/HeatMap/Array2D.cs:55-59 | the normalised grid has as many cells as before |
| Grid.ConstructAsWritten | HeatMap/HeatMap/HeatMap/Array2D.cs:35-46 | the constructor as written leaves the storage null and runs the fill loop over it, so it faults exactly when `width*height > 0`, and always when both dimensions are positive |
| Grid.FillCells | HeatMap/HeatMap/HeatMap/Array2D.cs:42-46 | the fill loop writes the value into the first `count` cells and leaves the rest; over null storage it faults exactly when `count > 0` |
| Brush.Surface.constructor | HeatMap/HeatMap/HeatMap/Pen.cs:23 | a fresh `width` by `height` surface with every cell at the value |
| Brush.Surface.GetValue | HeatMap/HeatMap/HeatMap/Pen.cs:49 | the height-map read that `Draw` makes: the value of cell `(x,y)`, column `x` of row `y` |
| Brush.Surface.SetValue | HeatMap/HeatMap/HeatMap/Pen.cs:49-50 | the cell `(x,y)` holds the value and every other cell is unchanged |
| Brush.Pen.constructor | HeatMap/HeatMap/HeatMap/Pen.cs:17-22 | radius, minimum and maximum pressure are the arguments |
| Brush.Pen.Draw | HeatMap/HeatMap/HeatMap/Pen.cs:23-53 | every cell of the surface becomes its old value plus `Gain`: the offset for cells in the disc, once each, and 0 elsewhere; only in-bounds cells are touched and the pen is unchanged |
| Brush.Pen.DrawRow | HeatMap/HeatMap/HeatMap/Pen.cs:43-51 | one row of the box: each cell from `minX` to `maxX` gains `Gain`, every other cell is unchanged |
| Brush.Dist2 | HeatMap/HeatMap/HeatMap/Pen.cs:45 | the squared distance from the pen to a cell is never negative |
| Brush.OffsetAtCentre | HeatMap/HeatMap/HeatMap/Pen.cs:47-48 | at distance 0 the offset is `Max` |
| Brush.OffsetAtRim | HeatMap/HeatMap/HeatMap/Pen.cs:47-48 | at distance `Radius` the offset is `Min` |
| Brush.OffsetWithinPressure | HeatMap/HeatMap/HeatMap/Pen.cs:46-48 | with `Min <= Max`, every offset inside the disc lies in `[Min,Max]` |
| Brush.OffsetRadiallyMonotone | HeatMap/HeatMap/HeatMap/Pen.cs:46-48 | with `Min <= Max`, the offset does not grow with distance from the centre |
| Brush.AxisWithinRadius | HeatMap/HeatMap/HeatMap/Pen.cs:45-46 | a cell in the disc lies within `Radius` of the centre along each axis |
| Brush.AxisBoundsCover | HeatMap/HeatMap/HeatMap/Pen.cs:28-36 | the truncated, clipped bounds along one axis include every in-range coordinate within `Radius` |
| Brush.BoxCoversDisc | HeatMap/HeatMap/HeatMap/Pen.cs:28-43 | the clipped box contains every grid cell of the disc, despite the `+0.5` bias and the truncating casts |
| Brush.DiscOffGridTouchesNothing | HeatMap/HeatMap/HeatMap/Pen.cs:28-46 | a disc lying wholly past any one side of the grid adds nothing to any cell, so by `Pen.Draw`'s contract the stroke changes nothing |
| Brush.WithinRadius | HeatMap/HeatMap/HeatMap/Pen.cs:46 | a coordinate difference whose square is at most `Radius²` lies in `[-Radius, Radius]` |
| Platform.TruncateToInt | HeatMap/HeatMap/HeatMap/Pen.cs:28-34 | the C# cast truncates toward zero: the floor for non-negative values, minus the floor of the negation otherwise |
| Platform.CSharpRem | HeatMap/HeatMap/HeatMap/Map.cs:50 | C# `%` takes the sign of the dividend: in `[0,n)` for non-negative values, in `(-n,0]` for negative ones, unchanged within `(-n,n)`, and `a == n*q + r` where `q` is the quotient rounded toward zero |
| Platform.LerpBetween | HeatMap/HeatMap/HeatMap/Array2D.cs:58 | `Lerp(a,b,t)` with `a <= b` and `t` in `[0,1]` lies in `[a,b]` |
| Platform.LerpMonotone | HeatMap/HeatMap/HeatMap/Pen.cs:48 | `Lerp(a,b,t)` with `a <= b` does not decrease in `t` |
| Platform.RemoveFirst | HeatMap/HeatMap/HeatMap/Map.cs:161 | `List.Remove`: unchanged when absent; otherwise exactly the first occurrence is dropped and the elements before and after it keep their order |
| Platform.IndexOf | HeatMap/HeatMap/HeatMap/Map.cs:161 | the index of the first occurrence |
| MathUtil.Min | HeatMap/HeatMap/HeatMap/Util.cs:275-282 | at most every element; an element when the input is not empty; `float.MaxValue` when it is |
| MathUtil.MinMax | HeatMap/HeatMap/HeatMap/Util.cs:289-301 | X at most and Y at least every element; both elements with X <= Y when not empty; `(MaxValue, MinValue)` when empty |
| MathUtil.SeqMin | HeatMap/HeatMap/HeatMap/Array2D.cs:50 | LINQ's `Min()`: an element, at most every element |
| MathUtil.SeqMax | HeatMap/HeatMap/HeatMap/Array2D.cs:51 | LINQ's `Max()`: an element, at least every element |
| MathUtil.Squared | HeatMap/HeatMap/HeatMap/Util.cs:303-306 | a square is never negative |
| MathUtil.Average | HeatMap/HeatMap/HeatMap/Util.cs:308-311 | the average times the count is the sum; the argument must not be empty |
| MathUtil.AverageBetweenExtremes | HeatMap/HeatMap/HeatMap/Util.cs:308-311 | the average lies between the smallest and the largest value |
| MathUtil.SumBounds | HeatMap/HeatMap/HeatMap/Util.cs:310 | values in `[lo,hi]` sum to between `n*lo` and `n*hi` |
| MathUtil.Clamp | HeatMap/HeatMap/HeatMap/Util.cs:320-323 | in `[min,max]` when `min <= max`; the value itself when already in range; `min` when the bounds are crossed |
| MathUtil.DotSymmetric | HeatMap/HeatMap/HeatMap/Util.cs:245-248 | `Dot(a,b) == Dot(b,a)` |
| MathUtil.DotSelf | HeatMap/HeatMap/HeatMap/Util.cs:245-248 | a vector dotted with itself is the sum of squared components, its squared length, never negative |
| MathUtil.SmoothStepEndpoints | HeatMap/HeatMap/HeatMap/Util.cs:404-407 | smooth-step is 0 at 0 and 1 at 1 |
| MathUtil.SmoothStepUnit | HeatMap/HeatMap/HeatMap/Util.cs:404-407 | smooth-step maps `[0,1]` into `[0,1]` |
| MathUtil.SmoothStepMonotone | HeatMap/HeatMap/HeatMap/Util.cs:404-407 | smooth-step does not decrease on `[0,1]` |
| Session.Map.constructor | HeatMap/HeatMap/HeatMap/Map.cs:60-74 | a new map is dirty, not generating, with no colour maps and index 0 |
| Session.Map.ColorMapIndex | HeatMap/HeatMap/HeatMap/Map.cs:42-44 | the getter of `ColorMapIndex`: the stored index, which the setter wrapped and `RemoveColorMap` never adjusts |
| Session.Map.CanRender | HeatMap/HeatMap/HeatMap/Map.cs:91 | whether `colorMaps[colorMapIndex]` can be read; it can only when at least one colour map is loaded |
| Session.Map.SetColorMapIndex | HeatMap/HeatMap/HeatMap/Map.cs:45-56 | the index becomes `IndexAfterSet(value, count)`; the map is always dirty afterwards |
| Session.IndexAfterSet | HeatMap/HeatMap/HeatMap/Map.cs:47-53 | 0 with no colour maps; in `[0,n)` for non-negative values and in `(-n,0]` for negative ones; a value already in `(-n,n)` is kept; always `value == n*q + index` with `q` the quotient rounded toward zero |
| Session.IndexAfterSetIdempotent | HeatMap/HeatMap/HeatMap/Map.cs:45-56 | storing the stored index again changes nothing |
| Session.NegativeIndexIsNotRenderable | HeatMap/HeatMap/HeatMap/Map.cs:47-53 | a negative value that is not a multiple of the count leaves a negative index, which rendering cannot read |
| Session.Map.RenderTextures | HeatMap/HeatMap/HeatMap/Map.cs:84-98 | renders and clears dirty exactly when `colorMaps[colorMapIndex]` can be read; otherwise faults and changes nothing |
| Session.RenderAfterSelect | HeatMap/HeatMap/HeatMap/Map.cs:84-98 | selecting a colour map then rendering faults exactly when none is loaded or the value is a negative non-multiple of their number |
| Session.Map.GetTexture | HeatMap/HeatMap/HeatMap/Map.cs:78-82 | a clean map does not render; a dirty map renders once and becomes clean, or faults on a bad index |
| Session.GetTextureTwice | HeatMap/HeatMap/HeatMap/Map.cs:78-82 | two consecutive successful calls render at most once |
| Session.Map.ApplyPen | HeatMap/HeatMap/HeatMap/Map.cs:104-128 | the shader parameters are `PenShaderParameters` of the pen and position; the map is dirty afterwards |
| Session.PenShaderParameters | HeatMap/HeatMap/HeatMap/Map.cs:109-115 | the position is divided by the dimensions and the radius by the larger dimension; the pressures pass through |
| Session.Map.GenerateRandomHeight | HeatMap/HeatMap/HeatMap/Map.cs:134-148 | a no-op while generating; otherwise generating becomes true and a fresh zeroed `width` by `height` grid is handed out |
| Session.Map.CompleteGeneration | HeatMap/HeatMap/HeatMap/Map.cs:139-144 | the completion step sets dirty and clears generating |
| Session.Map.IsGenerating | HeatMap/HeatMap/HeatMap/Map.cs:33-36 | whether a generation job is running: raised by a request, lowered only by the completion callback |
| Session.Map.GenerateRandomHeightAsWritten | HeatMap/HeatMap/HeatMap/Map.cs:134-138 | over the constructor as written, a request while idle raises the flag and then faults in `new Array2D`, before the completion callback exists; the flag stays raised |
| Session.GenerationStuckAfterFault | HeatMap/HeatMap/HeatMap/Map.cs:136-138 | after that fault, the next request returns at once and starts no job |
| Session.GenerateTwice | HeatMap/HeatMap/HeatMap/Map.cs:136 | a second request while generating does not start another job |
| Session.Map.AddColorMap | HeatMap/HeatMap/HeatMap/Map.cs:154-157 | appends and leaves index and flags alone |
| Session.Map.RemoveColorMap | HeatMap/HeatMap/HeatMap/Map.cs:159-162 | removes the first occurrence and never adjusts the index |
| Session.RemoveSelectedLastLeavesIndexOutOfRange | HeatMap/HeatMap/HeatMap/Map.cs:159-162 | removing the selected last colour map leaves the index past the end, also when an earlier copy of that map is the one `Remove` takes |
| Cameras.CameraEffect.T | HeatMap/HeatMap/HeatMap/Camera.cs:50-58 | `t` lies in `[0,1]`, is 0 with no duration, and is `elapsed/dur` while the effect runs |
| Cameras.CameraEffect.IsActive | HeatMap/HeatMap/HeatMap/Camera.cs:60-63 | an active effect that has started is at `t = elapsed/dur`; an effect with a duration is inactive only once `t` is 1; with no duration it is never active |
| Cameras.CameraEffect.constructor | HeatMap/HeatMap/HeatMap/Camera.cs:65-70 | nothing elapsed; the duration is given in milliseconds and stored in seconds |
| Cameras.CameraEffect.Flip | HeatMap/HeatMap/HeatMap/Camera.cs:229-237 | a flip multiplies the selected axes of the camera scale by -1 at once and dirties the transform |
| Cameras.CameraEffect.Update | HeatMap/HeatMap/HeatMap/Camera.cs:72-75 | elapsed grows by `dt` |
| Cameras.CameraEffect.Reset | HeatMap/HeatMap/HeatMap/Camera.cs:77-80 | elapsed returns to 0 |
| Cameras.CameraEffect.End | HeatMap/HeatMap/HeatMap/Camera.cs:239-243 | as the base `End` (lines 82-86), timing zeroed and camera dropped; a flip first multiplies the axes by `1/-1`, and faults once its camera is gone |
| Cameras.FlipRestoresScale | HeatMap/HeatMap/HeatMap/Camera.cs:236-241 | flipping then flipping back by `1/adjust` restores the scale |
| Cameras.Camera.constructor | HeatMap/HeatMap/HeatMap/Camera.cs:444-454 | locked on the origin, scale as given, no effects, transform dirty |
| Cameras.Camera.SetScale | HeatMap/HeatMap/HeatMap/Camera.cs:334-342 | the scale is the value, the transform is dirty, nothing else changes |
| Cameras.Camera.SetRotation | HeatMap/HeatMap/HeatMap/Camera.cs:316-324 | the rotation is the value and the transform is dirty; mode, targets, transition, scale, last frame position, `dt` and effects are unchanged |
| Cameras.Camera.CurrentFramePosition | HeatMap/HeatMap/HeatMap/Camera.cs:375-399 | the target's position when locked on a target, the stored position when locked on a position, and the eased `transitionPos` in every transition mode |
| Cameras.Camera.DeltaFramePosition | HeatMap/HeatMap/HeatMap/Camera.cs:375-408 | last frame position plus the delta is the current frame position |
| Cameras.Camera.AdvanceFrame | HeatMap/HeatMap/HeatMap/Camera.cs:590-595 | the last frame position becomes the current one, so the delta is zero; nothing else changes |
| Cameras.Camera.UpdateTransition | HeatMap/HeatMap/HeatMap/Camera.cs:502-563 | a locked camera is untouched; a transition counts down, locks onto its destination once it runs out, so the frame position is the destination, and otherwise moves along the eased path from the start to the destination; rotation, scale, `dt` and effects are unchanged |
| Cameras.Camera.FinishTransition | HeatMap/HeatMap/HeatMap/Camera.cs:709-715 | the destination becomes the start of later transitions and no time remains |
| Cameras.Camera.LockPosition | HeatMap/HeatMap/HeatMap/Camera.cs:606-639 | immediately: locked on the position, which is then the frame position, and the old destination recorded as the start; otherwise a position-to-position transition starting where the camera is now; rotation, scale, `dt` and effects are unchanged |
| Cameras.Camera.LockTarget | HeatMap/HeatMap/HeatMap/Camera.cs:646-677 | immediately: locked on the target, whose position is then the frame position; otherwise a position-to-target transition starting where the camera is now (corrected, see Findings); rotation, scale, `dt` and effects are unchanged |
| Cameras.Camera.LockTargetAsWritten | HeatMap/HeatMap/HeatMap/Camera.cs:657-674 | leaving a target lock, the transition starts at the new target, which is not where the camera is when the two targets' positions differ |
| Cameras.Camera.TransitionToTarget | HeatMap/HeatMap/HeatMap/Camera.cs:685-690 | immediately: as an immediate `LockTarget`, the transition time untouched; otherwise a position-to-target transition of `duration` seconds starting where the camera is now. As written `TransitionTo(target)` calls the shadowing `LockTarget` (see Findings), so it too starts at the new target; the model calls the corrected one |
| Cameras.Camera.TransitionToPosition | HeatMap/HeatMap/HeatMap/Camera.cs:698-703 | immediately: as an immediate `LockPosition`, the transition time untouched; otherwise a position-to-position transition of `duration` seconds starting where the camera is now; the target is unchanged |
| Cameras.Camera.AddEffect | HeatMap/HeatMap/HeatMap/Camera.cs:725-730 | the effect is appended and the transform dirtied; mode, targets, transition, rotation, scale and frame state are unchanged |
| Cameras.Camera.UpdateEffects | HeatMap/HeatMap/HeatMap/Camera.cs:568-584 | the list becomes the survivors in order, all active and advanced by `dt`; the casualties are returned, all ended; the scale has every ended flip undone; the transform is dirty afterwards exactly when it was before or an ended effect is a flip |
| Cameras.Camera.TickEffects | HeatMap/HeatMap/HeatMap/Camera.cs:570-577 | exactly the active effects advance, and the collected effects are those inactive afterwards, in list order |
| Cameras.Camera.EndCasualties | HeatMap/HeatMap/HeatMap/Camera.cs:578-583 | each collected effect is ended and the list loses exactly those effects; the transform is dirty afterwards exactly when it was before or one of them is a flip |
| Cameras.Camera.EndAndRemove | HeatMap/HeatMap/HeatMap/Camera.cs:581-582 | the effect is ended, undoes its flip, and is no longer listed |
| Cameras.SurvivorsAreWithoutCasualties | HeatMap/HeatMap/HeatMap/Camera.cs:571-583 | removing the casualties from a list without duplicates leaves exactly the survivors |
| Cameras.SurvivorSurvives | HeatMap/HeatMap/HeatMap/Camera.cs:573-576 | every survivor is still active after its update |
| Cameras.RemoveFromWithout | HeatMap/HeatMap/HeatMap/Camera.cs:582 | `List.Remove` of one more collected effect is the filter by the longer list |
| Cameras.Camera.RemoveEffect | HeatMap/HeatMap/HeatMap/Camera.cs:736-741 | ends the effect, removes it and dirties the transform; a flip whose camera is gone faults before anything is removed |
| Cameras.Camera.EndEffectAsWritten | HeatMap/HeatMap/HeatMap/Camera.cs:747-752 | ending a flip this way faults: the effect stays listed with no camera, breaking the camera's invariant; the first `End` has already undone the flip on the scale, and any other effect is removed with the transform marked dirty |
| Cameras.Camera.EndEffect | HeatMap/HeatMap/HeatMap/Camera.cs:747-752 | ends the effect once: removed if listed, flip undone, transform dirty, invariant kept; an unlisted effect is ended and nothing is removed; a flip whose camera is already gone is refused and changes nothing (corrected, see Findings) |
| Cameras.Camera.CalculateEffectOffsets | HeatMap/HeatMap/HeatMap/Camera.cs:837-856 | the offsets are the component-wise sum over the active effects |
| Cameras.InactiveEffectsContributeNothing | HeatMap/HeatMap/HeatMap/Camera.cs:844-845 | a list of inactive effects sums to no offset |
| Cameras.AppendInactiveEffect | HeatMap/HeatMap/HeatMap/Camera.cs:844-845 | an inactive effect added to the list leaves the sum unchanged |
| Controls.InputBinding.constructor | HeatMap/HeatMap/HeatMap/Input.cs:80-91 | every input field at its "none" value, the button at `BigButton`, the modifiers a private copy |
| Controls.InputBinding.Unbound | HeatMap/HeatMap/HeatMap/Input.cs:79 | no binding type and no modifiers |
| Controls.InputBinding.SetModifiers | HeatMap/HeatMap/HeatMap/Input.cs:147-151 | the binding's modifiers are a fresh copy of the argument |
| Controls.CopyModifiers | HeatMap/HeatMap/HeatMap/Input.cs:149-150 | a fresh array with the same contents |
| Controls.InputBinding.SetThumbstickDirectionBinding | HeatMap/HeatMap/HeatMap/Input.cs:97-104 | the type is thumbstick direction, direction and stick are set, other input fields are kept, the modifiers are copied |
| Controls.InputBinding.SetMouseButtonBinding | HeatMap/HeatMap/HeatMap/Input.cs:105-111 | the type is mouse button, the button is set, the rest as above |
| Controls.InputBinding.SetThumbstickBinding | HeatMap/HeatMap/HeatMap/Input.cs:112-118 | the type is thumbstick, the stick is set, the rest as above |
| Controls.InputBinding.SetTriggerBinding | HeatMap/HeatMap/HeatMap/Input.cs:119-125 | the type is trigger, the trigger is set, the rest as above |
| Controls.InputBinding.SetButtonBinding | HeatMap/HeatMap/HeatMap/Input.cs:126-132 | the type is button, the button is set, the rest as above |
| Controls.InputBinding.SetKeyBinding | HeatMap/HeatMap/HeatMap/Input.cs:133-139 | the type is key, the key is set, the rest as above |
| Controls.ModifiersAreCopied | HeatMap/HeatMap/HeatMap/Input.cs:147-151 | changing the caller's array after setting a binding leaves the binding's modifiers as they were |
| Controls.IsModifierActive | HeatMap/HeatMap/HeatMap/Input.cs:170-173 | a modifier is active exactly when one of its own two keys (left or right) is down |
| Controls.MatchesModifiersMeaning | HeatMap/HeatMap/HeatMap/Input.cs:153-158 | the modifiers match exactly when every modifier is held iff it is listed |
| Controls.DifferentModifiersExclusive | HeatMap/HeatMap/HeatMap/Input.cs:153-158 | two lists that differ on a modifier never both match one keyboard |
| Controls.InputBinding.ModifiersMatch | HeatMap/HeatMap/HeatMap/Input.cs:153-158 | true exactly when every modifier is held iff the binding lists it |
| Controls.Input.constructor | HeatMap/HeatMap/HeatMap/Input.cs:243-246 | no bindings, zero thresholds, idle snapshots |
| Controls.Input.Copy | HeatMap/HeatMap/HeatMap/Input.cs:247-263 | same snapshots, thresholds and binding objects |
| Controls.Input.SetThumbstickThreshold | HeatMap/HeatMap/HeatMap/Input.cs:226-230 | only the thumbstick threshold changes |
| Controls.Input.SetTriggerThreshold | HeatMap/HeatMap/HeatMap/Input.cs:233-237 | only the trigger threshold changes |
| Controls.Input.Update | HeatMap/HeatMap/HeatMap/Input.cs:276-285 | the current snapshots become the previous ones and the polled states become current |
| Controls.Input.AddKeyBinding | HeatMap/HeatMap/HeatMap/Input.cs:289-294 | exactly the given binding is under the name, replacing any old one; every other name is unchanged |
| Controls.Input.AddThumbstickDirectionBinding | HeatMap/HeatMap/HeatMap/Input.cs:295-300 | a fresh thumbstick-direction binding is added under the name, with a private copy of the modifiers; snapshots and thresholds are unchanged |
| Controls.Input.AddMouseButtonBinding | HeatMap/HeatMap/HeatMap/Input.cs:301-306 | a fresh mouse-button binding is added under the name, with a private copy of the modifiers; snapshots and thresholds are unchanged |
| Controls.Input.AddThumbstickBinding | HeatMap/HeatMap/HeatMap/Input.cs:307-312 | a fresh thumbstick binding is added under the name, with a private copy of the modifiers; snapshots and thresholds are unchanged |
| Controls.Input.AddTriggerBinding | HeatMap/HeatMap/HeatMap/Input.cs:313-318 | a fresh trigger binding is added under the name, with a private copy of the modifiers; snapshots and thresholds are unchanged |
| Controls.Input.AddButtonBinding | HeatMap/HeatMap/HeatMap/Input.cs:319-324 | a fresh button binding is added under the name, with a private copy of the modifiers; snapshots and thresholds are unchanged |
| Controls.Input.AddKeyBindingFor | HeatMap/HeatMap/HeatMap/Input.cs:325-330 | a fresh key binding is added under the name, with a private copy of the modifiers; snapshots and thresholds are unchanged |
| Controls.Input.RemoveKeyBinding | HeatMap/HeatMap/HeatMap/Input.cs:338-342 | the name is unbound afterwards; a no-op for an absent name |
| Controls.RemoveTwice | HeatMap/HeatMap/HeatMap/Input.cs:338-342 | removing twice is removing once |
| Controls.Input.UpdateKeyBinding | HeatMap/HeatMap/HeatMap/Input.cs:350-354 | the same new table as adding the binding |
| Controls.UpdateIsAdd | HeatMap/HeatMap/HeatMap/Input.cs:350-354 | update and add give equal tables from equal tables |
| Controls.Input.HasKeyBinding | HeatMap/HeatMap/HeatMap/Input.cs:361-364 | whether a binding is stored under the name |
| Controls.Input.IsKeyActive | HeatMap/HeatMap/HeatMap/Input.cs:446-450 | the key is down in the keyboard snapshot of the chosen frame |
| Controls.Input.IsButtonActive | HeatMap/HeatMap/HeatMap/Input.cs:451-455 | the button is down in the gamepad snapshot of the chosen frame |
| Controls.Input.IsMouseButtonActive | HeatMap/HeatMap/HeatMap/Input.cs:456-477 | the chosen frame's left, right or middle button for those three, never for no button; when active, some mouse button is pressed |
| Controls.Input.IsThumbstickDirectionActive | HeatMap/HeatMap/HeatMap/Input.cs:478-502 | the stick (the left one, or else the right one) is pushed at least the threshold along the direction; never for no direction, and with a positive threshold only when the stick is off centre |
| Controls.Input.IsThumbstickActive | HeatMap/HeatMap/HeatMap/Input.cs:503-508 | the stick's length reaches the threshold, tested on squares since the length is never negative |
| Controls.Input.IsTriggerActive | HeatMap/HeatMap/HeatMap/Input.cs:509-514 | the trigger (the left one, or else the right one) reaches the trigger threshold |
| Controls.Input.IsKeyBindingActive | HeatMap/HeatMap/HeatMap/Input.cs:384-419 | false for an unbound name and for a binding of type none; when true, the held modifiers are exactly the listed ones |
| Controls.PressAndReleaseExclusive | HeatMap/HeatMap/HeatMap/Input.cs:427-442 | a binding is never pressed and released in the same frame |
| Controls.Input.IsKeyBindingPress | HeatMap/HeatMap/HeatMap/Input.cs:427-430 | a press needs a bound name whose type is not none, and a device that changed between the two frames |
| Controls.Input.IsKeyBindingRelease | HeatMap/HeatMap/HeatMap/Input.cs:439-442 | a release needs a bound name whose type is not none, and a device that changed between the two frames |
| Controls.PressAfterUpdate | HeatMap/HeatMap/HeatMap/Input.cs:427-442 | after `Update`, a press is a binding active under the polled states and not under the states current before; a release the reverse |
| Controls.SteadyFramesAgree | HeatMap/HeatMap/HeatMap/Input.cs:384-419 | with no device changed, every binding reads the same in both frames |
| Controls.UnboundNameNeverFires | HeatMap/HeatMap/HeatMap/Input.cs:361-364 | a name without a binding is never active, pressed or released |
| Controls.ModifierKeyNeedsItsModifier | HeatMap/HeatMap/HeatMap/Input.cs:446-450 | a key binding on one of a modifier's own keys that does not list the modifier never fires |
| Controls.ButtonQueryAfterUpdate | HeatMap/HeatMap/HeatMap/Input.cs:451-455 | after `Update`, the previous frame answers what the current one did and the current frame reads the polled gamepad |
| Controls.MouseButtonQueryAfterUpdate | HeatMap/HeatMap/HeatMap/Input.cs:456-477 | after `Update`, the previous frame answers what the current one did, the current frame reads the polled mouse, and no button is never held |
| Controls.BareAndShiftedExclusive | HeatMap/HeatMap/HeatMap/Input.cs:153-158 | a binding listing Shift and one that does not are never active in the same frame |
| Controls.OppositeDirectionsExclusive | HeatMap/HeatMap/HeatMap/Input.cs:478-502 | with a positive threshold, a stick is never active both up and down, nor both left and right |
| Controls.ThumbstickActiveBelowZeroThreshold | HeatMap/HeatMap/HeatMap/Input.cs:503-508 | with a threshold of zero or less, every thumbstick binding is active |
| Controls.ThumbstickActiveMeansLength | HeatMap/HeatMap/HeatMap/Input.cs:503-508 | the test on squares is the test `Length() >= threshold` for the stick's actual length |
| Controls.TriggerThresholdMonotone | HeatMap/HeatMap/HeatMap/Input.cs:509-514 | raising the threshold never activates a trigger, and every trigger but the left one reads the right trigger |
| Controls.Input.GetMousePos | HeatMap/HeatMap/HeatMap/Input.cs:532-536 | the cursor of the current snapshot, or of the previous one |
| Controls.MousePosAfterUpdate | HeatMap/HeatMap/HeatMap/Input.cs:532-536 | after `Update`, the previous cursor is the one that was current and the current cursor is the polled one |

## Left out

- GPU work is not modelled: render targets, shaders, `SetData`, `LoadContent`, `Destroy`, `ShaderUtil`, `ColorTexture` and `BasicShapes`. A render is reduced to a counter, and the colour-map textures to identities.
- Integers are unbounded. C#'s 32-bit overflow of `width*row + col` and `width*height` (Array2D.cs:28, 44) is not modelled, and neither is the `(int)` cast of a float outside the `int` range in the pen's bounding box (Pen.cs:28-34).
- The background thread behind `GenerateRandomHeight` is not modelled. Only the flag protocol is: the request and `CompleteGeneration`, its completion callback.
- `MapGenerator.cs` (diamond-square, `ThreadedGenerateRandomHeight`) is not part of this model.
- `IArray2D`, through which the surface `Pen.Draw` writes, is not part of this model. `Brush.Surface` stands in for it, with `GetValue`/`SetValue` over column `x` and row `y`.
- IEEE float behaviour is not modelled: NaN from 0/0, rounding, infinities. Floats are reals, and each division by zero is a precondition or an error outcome.
- MathUtil.Min: requires every value to be within the float range, because reals are unbounded and `float.MaxValue` is only a maximum when the inputs are floats. The same holds for MathUtil.MinMax.
- MathUtil.Average: requires a non-empty argument; the code divides by a zero count.
- Brush.Pen.Draw: requires a positive radius; the code divides by `Radius*Radius`.
- Brush.Pen.Draw: the intensity curve is fixed to smoothstep. `Pen.intensityFunc` (Pen.cs:12) is a public static field that other code could replace; a curve swapped at run time is not modelled.
- `IPositionable.GetPosition` is not modelled. It is passed in as the function `positionOf`, and the position a target reports is assumed stable within one call.
- The `Math.Pow(x, 0.5)` easing of a transition is passed in as the function `ease`.
- The decay and oscillation functions of the shake and bounce effects are not modelled. They are passed in as one function `wave` of `t` per effect.
- The effect offsets are an `Offsets` datatype, not the code's `float[5]`.
- Matrices are not modelled: `CalculateTransformMatrix`, `TransformMatrix`, `Screen2WorldCoords` and the viewport.
- `Camera.Update` is not modelled as one method. It only stores `dt` and calls `UpdateTransition`, `UpdateEffects` and the matrix step; `dt` is a field of the model.
- The `Camera(Camera)` copy constructor is not modelled. It copies the mode, the targets and target positions, the transition fields, `lastFramePos`, `dt`, `isTransformDirty` and the matrix. It puts the same effect objects into a new list, and those effects still name the original camera. It copies neither `scale`, `rotation` nor `viewport`, so a copy starts with scale (0,0) and rotation 0.
- Cameras.Camera.UpdateTransition: requires a non-negative elapsed time, the game clock's guarantee. The TtT and TtV modes are never entered by any method, and the invariant excludes them. The branches that read `oldTarget` are therefore unreachable.
- Cameras.Camera.AddEffect: requires the effect to name this camera and not to be listed already. The invariant keeps effects distinct. A list holding one effect twice, or an effect of another camera, is not modelled.
- Cameras.Camera.RemoveEffect: requires the effect to name this camera or none. Removing an effect that names another camera, which would flip that other camera's scale, is not modelled.
- Cameras.Camera.EndEffectAsWritten: requires a listed effect in a valid camera, to exhibit the fault of the code's double `End`; the corrected `EndEffect` accepts any effect of this camera.
- Cameras.Camera.LockTarget: the target argument is never null; a null target is not modelled.
- Session.Map.constructor: requires positive dimensions, because the code's render-target creation refuses other sizes.
- The current-frame overloads `IsKeyBindingActive(key)` and `GetMousePos()` are not modelled apart: each calls the overload taking a `FrameState` with `Current`.
- Device polling (`Keyboard.GetState`, `GamePad.GetState`, `Mouse.GetState`) is not modelled. The polled states are parameters of `Input.Update`.
- A gamepad button counts as held by membership in the set of held buttons. XNA's test of combined button flags is not modelled.
- A thumbstick's `Length()` is compared on squares, which is exact for the non-negative length; the square root is not modelled.
- A null entry in a modifier array is not modelled; modifiers are a datatype.
- `StringExtensions.Split`, `EnumUtil`, the `Vector2` rotation helpers and the random-number extensions of `Util.cs` are not modelled. They are thin wrappers over library calls.

## Findings

| source | as written | input that shows it | evidently intended | confidence | as-written member | corrected member |
|---|---|---|---|---|---|---|
| HeatMap/HeatMap/HeatMap/Array2D.cs:35-46 | the constructor never allocates `data`, so `Initialize` writes through a null array; `GenerateRandomHeight` sets `_generating` before its `new Array2D`, so after that fault every later request returns at once | `new Array2D(1, 1)` | allocate `width*height` cells, then fill them | high; not executed | Grid.ConstructAsWritten | Grid.Array2D.constructor |
| HeatMap/HeatMap/HeatMap/Camera.cs:747-752 | `EndEffect` calls `End()` and then `RemoveEffect`, which calls `End()` again; for a flip the first call cleared the camera, so the second dereferences null, and the effect stays listed | a camera with one `CameraFlipEffect`, then `EndEffect` on it | end the effect once, then remove it | high; not executed | Cameras.Camera.EndEffectAsWritten | Cameras.Camera.EndEffect |
| HeatMap/HeatMap/HeatMap/Camera.cs:662-663 | in `LockTarget` the parameter `target` shadows the field, so leaving a target lock the transition starts at the new target's position; `TransitionTo(target)` at lines 685-690 calls this `LockTarget` and inherits it | locked on a target at (0,0), then `LockTarget(b, false)` with `b` at (10,0): the transition starts at (10,0) | start from the old target's position, as `LockPosition` does at lines 622-623 | high; not executed | Cameras.Camera.LockTargetAsWritten | Cameras.Camera.LockTarget |
