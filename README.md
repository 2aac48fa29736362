# 3frac editor core in Dafny

3frac is an interactive editor. You place boxes ("components") in 3D space. The editor then draws a fractal: every (depth+1)-long tuple of boxes becomes one instance, placed by the product of the tuple's transforms. This project models three parts of its core:

- **The editor state.** Boxes, one selection, an optional drag snapshot, the iteration depth and a few flags. It exists in two versions, and both are modelled:
  - the working frame loop in `src/main.rs`, as the class `FrameLoop.Editor`. Its selection is a `Weak` reference. The module `FrameSteps` states what each arm of the event match, and a whole frame, does to the loop's state taken as a value (`Loop`); each method of `Editor` is proved to change its fields exactly as its step function says;
  - the unfinished split into `src/state/` and `src/input/`, as the class `EditorState.State` plus one module per handler file (`InputSelection`, `InputTranslation`, `InputScale`, `InputRotation`, `InputLifecycle`, `InputMisc`). Its selection is a strong `Rc`.
- **Picking and hover.** The first minimal time of impact over the boxes the mouse ray hits, and the hover flags.
- **Fractal enumeration and regeneration gating.** The Cartesian power of the boxes, the product of each tuple's transforms over an abstract monoid, the component-wise colour multiply fold, and the dirty / ceiling / depth-0 gates.
- **The wireframe edge table `BOX_EDGES`.** It is built over doubled integer corner coordinates, so the distance test is exact.

How the model represents the source:

- **Numbers.** Vectors are triples of `real`.
- **Rotations.** Quaternions are symbolic terms (`Identity`, `AxisAngle`, `Mul`, `Div`). Angles are in turns: 2π/24 rad is 1/24 turn.
- **Foreign numerics.** Rotating a vector, `norm` and `normalize` come in as a `Numerics` record of functions. The ray-cuboid query, the camera-plane time of impact and the hue shift are parameters too.
- **Box identity.** An `Rc` box is a `Shared(id, val)` entry. The frame loop's `Weak` selection is an id, looked up with `IndexOf`, so it resolves to nothing once its box has been removed. In `EditorState.State` the strong selection also keeps a removed box alive: the box is kept in the `detached` field.

Files, by module:

| file | module |
|---|---|
| `options.dfy` | `Options` |
| `linear.dfy` | `Linear` |
| `events.dfy` | `Events` |
| `constants.dfy` | `Constants` |
| `component.dfy` | `Components` |
| `controls.dfy` | `Controls` |
| `picking.dfy` | `Picking` |
| `fractal.dfy` | `Fractal` |
| `world.dfy` | `World` |
| `drag.dfy` | `Drag` |
| `loop_steps.dfy` | `FrameSteps` |
| `mainloop.dfy` | `FrameLoop` |
| `state.dfy` | `EditorState` |
| `input_*.dfy` | the handler modules |

Where the two versions of the code disagree, the model follows each as written:

- **Delete key.** The frame loop deletes on Shift+Backspace, and plain Backspace resets the orientation (`src/main.rs:329-341`). The split handlers delete on plain Backspace (`src/input/selection.rs:49`), and `src/input/rotation.rs:44` also resets the orientation on plain Backspace.
- **Decreasing depth.** The frame loop's Left arrow does nothing at depth 0. `State::decrease_depth` has no guard (`src/state/mod.rs:83`): at depth 0 the decrement panics in a debug build and wraps to `usize::MAX` in a release build. The model requires depth > 0. The `decrease_depth` handler is bound to Right, as written (`src/input/misc.rs:33`).
- **Rotation keys.** The frame loop turns I/K about x, J/L about z and U/O about y, with negated angles on J, K and U. The handler turns I/K about z, J/L about x and U/O about y, with negated axes on K, L and O. `Controls.RotationMapsDiffer` shows that the two maps build different rotation terms for every key.
- **Translation with no selection.** The handler still answers Handled (`src/input/translation.rs:41`).

Behaviour of the code that the model keeps as written:

- **New box.** `Component::new` gives scale 1 on every axis, white colour, the identity orientation and origin `Vector3::identity()`, which is the unit x vector (`src/component.rs:28-38`).
- **`edges`.** It yields the 24 ordered pairs of `BOX_EDGES`, each end scaled component-wise by the box's scale; the origin and orientation are not applied (`src/component.rs:40-50`).
- **Tuple colour.** The colour of a tuple is the component-wise product of its boxes' colours, folded from the first (`src/main.rs:695-702`). `Fractal.ColorFoldIsNotBlend` shows that c·c = c only when every channel of c is 0 or 1.
- **Over the ceiling.** When the cube count exceeds the ceiling the frame is skipped with `continue` (`src/main.rs:656-659`); the point-cloud rendering there is only a comment.
- **Zoom scroll.** A scroll over a live selection with no scale or colour key clears `render_dirty`, even when an earlier event of the same frame set it (`src/main.rs:264`). `FrameLoop.ZoomAfterDepthChange` shows that such a frame is not regenerated.
- **Drag snapshot.** The documented invariant that `drag_state` exists exactly while dragging (`src/state/world.rs:17`) is not kept: Escape, deselect and delete all leave the snapshot in place. The model states this as written.
- **Box equality.** The code finds "the same box" with `==` on box contents (`src/main.rs:167`, `src/state/mod.rs:134`), but `Component` derives no `PartialEq` and has no `hovered` field. The model compares boxes by identity (id), and adds the `hovered` field.

## Model

| member | source | states |
|---|---|---|
| Constants.FineStepsAreSmaller | src/constants.rs:33-43 | every fine multiplier lies strictly between 0 and 1, so a Shift step is positive and smaller than the plain step |
| Constants.CartesianProductMembers | src/constants.rs:20 | the product has \|xs\|·\|ys\| pairs and holds exactly the pairs drawn from the two lists |
| Constants.FilterMembers | src/constants.rs:20-22 | the filter keeps exactly the elements that satisfy the predicate |
| Constants.BoxEdgesValue | src/constants.rs:5-26 | the filtered product of the eight corners equals the explicit 24-entry table, grouped by first corner |
| Constants.BoxEdgesAreUnitPairs | src/main.rs:48-67 | a pair is in `BOX_EDGES` iff both ends are cube corners at distance exactly 1 |
| Constants.BoxEdgesSymmetricIrreflexive | src/constants.rs:5-26 | (p, q) is present iff (q, p) is; no corner is paired with itself |
| Constants.BoxEdgesAlongOneAxis | src/constants.rs:20-21 | every pair differs in exactly one coordinate, where the two ends are opposite |
| Constants.BoxEdgesShape | src/constants.rs:5-26 | `BOX_EDGES` has 24 pairs; both ends of each are cube corners (every doubled coordinate ±1) and differ along one axis only |
| Constants.BoxEdgesCount | src/constants.rs:5-26 | 24 pairs; the pair at position k starts at corner k/3 |
| Constants.CornersDistinct | src/constants.rs:7-16 | the eight corners are pairwise distinct |
| Constants.ThreePairsPerCorner | src/constants.rs:5-26 | each corner is the first element of exactly three pairs, at positions 3i..3i+2 |
| Components.EdgesAreScaledCubeEdges | src/component.rs:40-50 | `edges` has one segment per table entry (24), each an edge of the box of size `scale` centred at the origin |
| Components.UnitScaleEdgesAreTable | src/component.rs:40-50 | with scale (1,1,1), `edges` is the edge table itself, entry by entry |
| Components.CuboidOf | src/component.rs:59-61 | the half extents doubled give the scale; they are non-negative when the scale is |
| Components.CuboidTransformIsRigidPart | src/component.rs:63-65 | two boxes get the same placement iff they agree on origin and orientation; scale, colour and hover do not matter |
| Components.NewIsUnitCube | src/component.rs:28-38 | a new box has unit scale, white colour, identity orientation, half extents 0.5, and the edge table as its wireframe |
| Components.IndexOf | src/state/mod.rs:134 | the position of an id is None iff no entry has it; otherwise it is the first entry with that id |
| Components.Resolve | src/main.rs:220 | a reference resolves to nothing iff there is none or its box is no longer listed; otherwise it resolves to the position holding that id |
| Components.SwapRemove | src/main.rs:335 | the length drops by 1, the last element takes the freed index, all others keep their positions, and the multiset loses exactly the removed element |
| Components.SwapRemoveWellFormed | src/state/mod.rs:134-135 | removing keeps the ids valid, the removed id resolves to nothing afterwards, and every other id still resolves |
| Components.AppendWellFormed | src/state/mod.rs:118-120 | appending under the next id keeps the ids valid (and the scales non-negative) |
| Components.UpdateWellFormed | src/input/translation.rs:38 | rewriting one box's fields keeps the ids valid (and the scales non-negative when the new scale is) |
| Controls.OppositeTranslationKeyReverses | src/input/translation.rs:21-28 | the opposite key's axis is the negated axis, and taking the opposite twice gives the key back |
| Controls.TranslatedMovesOneAxis | src/main.rs:345-463 | a translation key changes exactly one origin coordinate, by ±step (W +z, S −z, A +x, D −x, R +y, F −y) |
| Controls.Translated | src/input/translation.rs:38 | a translation changes only the origin |
| Controls.OppositeTranslationsCancel | src/input/translation.rs:21-28 | a key and then its opposite, with the same step, restore the box exactly |
| Controls.TranslateFactor | src/input/translation.rs:32-36 | the translation step is positive |
| Controls.StepsMatchConstants | src/main.rs:224-228 | each step is the base constant, or base × fine with Shift/fine, and the fine step is strictly smaller |
| Controls.FrameLoopRotation | src/main.rs:466-561 | the frame loop applies an axis-angle rotation by ±factor |
| Controls.HandlerRotation | src/input/rotation.rs:21-28 | the handler applies an axis-angle rotation by exactly +factor |
| Controls.RotationMapsDiffer | src/input/rotation.rs:21-28 | the two rotation key maps disagree on every key |
| Controls.RotateFactor | src/input/rotation.rs:32-36 | the rotation step is positive |
| Controls.Rotated | src/input/rotation.rs:38 | a rotation changes only the orientation |
| Controls.ResetOrientation | src/input/rotation.rs:44-47 | a reset sets the orientation to identity and touches no other field |
| Controls.ResetOrientationIdempotent | src/input/rotation.rs:44-47 | resetting twice is resetting once |
| Controls.ClampAtZero | src/input/scale.rs:43 | the clamp is non-negative, and it is the identity on non-negative values |
| Controls.ScaleAdjustment | src/input/scale.rs:36-40 | the scale step per scroll unit is positive |
| Controls.ColorAdjustment | src/main.rs:251-255 | the hue step per scroll unit is positive |
| Controls.ScrollChangesAreStepTimesOffset | src/main.rs:224-255 | a scroll changes the scale, or the hue, by the step per unit times the scroll offset, in the scroll's direction |
| Controls.ScaleKeyHeld | src/input/scale.rs:42-54 | a scale key takes effect iff one is held, with priority B, X, Y, Z |
| Controls.Rescaled | src/input/scale.rs:42-51 | a scale edit changes only the scale |
| Controls.RescaledNonNegative | src/input/scale.rs:43-51 | a non-negative scale stays non-negative; after B every axis is non-negative |
| Controls.RescaledPerAxis | src/input/scale.rs:42-51 | X, Y and Z change their own axis only, and B changes all three; an axis whose sum is ≥ 0 becomes exactly old + delta |
| Controls.Created | src/input/component_lifecycle.rs:33-40 | a new box has the `Component::new` defaults, except origin = the intersection point and a doubled scale with Shift |
| Picking.Tois | src/main.rs:143-148 | there is one impact query per box |
| Picking.MinToi | src/state/mod.rs:58-69 | None iff nothing is hit; otherwise a hit whose toi is ≤ every hit and < every earlier hit (`min_by` keeps the first) |
| Picking.NearestIntersectionIsNearest | src/state/mod.rs:51-76 | picking finds nothing iff no box is hit; otherwise the id of a listed box with minimal toi, and impact = origin + toi·dir |
| Picking.HoverKeepsPicking | src/main.rs:143-148 | the hover flags do not change any box's time of impact, so picking after the hover pass finds the same box and point |
| Picking.HoverTarget | src/main.rs:155-183 | the hover pass keeps ids and every other field |
| Picking.HoverTargetExactlyPicked | src/main.rs:155-183 | after the hover pass exactly the picked box is hovered, none when nothing is hit, and the list stays well formed |
| Fractal.PowerLength | src/main.rs:687-689 | the k-fold power of N elements has N^k tuples |
| Fractal.PowerMembers | src/main.rs:687-689 | the power holds exactly the k-tuples over the base |
| Fractal.PowerMap | src/main.rs:679-694 | mapping then taking the power equals taking the power then mapping, so transforms and colours stay paired tuple by tuple |
| Fractal.PowerMembersLength | src/main.rs:687-689 | every tuple of the k-fold power has length k |
| Fractal.ProductConcat | src/main.rs:690 | in a monoid, the product of a concatenation is the product of the two products (left to right) |
| Fractal.ProductSingleton | src/main.rs:690 | the product of one transform is that transform |
| Fractal.ColorMonoidIsMonoid | src/main.rs:699 | the component-wise colour multiply is a monoid with white as its identity |
| Fractal.ColorFoldIsProduct | src/main.rs:695-702 | folding from the first colour equals the monoid product from white |
| Fractal.ColorFoldInUnitCube | src/main.rs:695-702 | colours in [0,1]^3 fold to a colour in [0,1]^3 |
| Fractal.ColorFoldIsNotBlend | src/main.rs:699 | folding a colour with itself gives it back iff every channel is 0 or 1 |
| Fractal.RegenerateInstances | src/main.rs:671-704 | an iterated render has exactly N^(depth+1) ≤ ceiling instances; instance j is (product of tuple j's transforms, colour fold of tuple j) |
| Fractal.RegenerateGating | src/main.rs:652-669 | unchanged iff not dirty; over budget iff dirty and N^(depth+1) > ceiling; base group only iff dirty, within the ceiling and depth 0 |
| Fractal.RegenerateWithinBudget | src/main.rs:656-659 | with the exact count, an iterated render never exceeds the ceiling |
| Fractal.CubeCountAsWrittenAdmitsHugeRender | src/main.rs:649-659 | with 2 boxes at depth 63, the wrapped count is 0 and passes the gate, though there are 2^64 tuples |
| World.NewWorldIsIdle | src/state/world.rs:41-50 | a new world has no boxes, no drag and no selection, and no id resolves in it |
| World.SelectionIsAtMostOneBox | src/state/world.rs:20-21 | with valid ids the selection names at most one listed box |
| Drag.DragStart | src/main.rs:194-198 | the snapshot keeps the orientation at the press, and origin + handle offset is the impact point |
| Drag.PressDistance | src/main.rs:197 | the recorded camera distance is the time of impact times the length of the ray's direction |
| Drag.TerminusAtPress | src/main.rs:608-609 | going that distance along the normalised direction of the same ray reaches the impact point again |
| Drag.TurnedDragKeepsGrabPoint | src/main.rs:604-615 | while the mouse ray is the press's, however the box has turned since, the dragged origin plus the turned handle offset is the impact point |
| Drag.DraggedOrigin | src/state/mod.rs:148-152 | the new origin plus the turned handle offset is exactly the terminus on the ray |
| Drag.DragStartIsAnchored | src/main.rs:194-198 | with lawful numerics, a drag update with the press's own ray and no rotation leaves the origin unchanged |
| FrameLoop.Editor.constructor | src/main.rs:108-120 | the loop starts with no boxes, no selection, no drag, depth 0 |
| FrameLoop.Editor.UpdateHover | src/main.rs:155-183 | the loop leaves the list equal to the hover target; nothing else changes |
| FrameLoop.Editor.PressLeft | src/main.rs:186-206 | a hit selects the box and snapshots (orientation, impact − origin, \|ray.origin − impact\|); a miss clears the selection and keeps the snapshot |
| FrameLoop.Editor.ReleaseLeft | src/main.rs:208-211 | drag ends, and the frame is dirty |
| FrameLoop.Editor.Scroll | src/main.rs:213-271 | with a live selection, a held scale key rescales it, else C shifts its hue, else the zoom clears dirty; without one, nothing changes |
| FrameLoop.Editor.ScrollScale | src/main.rs:232-245 | only the selected box's fields change, to the rescaled ones, and the frame is dirty; the list stays well formed |
| FrameLoop.Editor.ScrollHue | src/main.rs:246-262 | only the selected box's fields change, to the hue-shifted ones, and the frame is dirty; the list stays well formed |
| FrameLoop.Editor.IncreaseDepth | src/main.rs:273-277 | depth + 1, and dirty |
| FrameLoop.Editor.DecreaseDepth | src/main.rs:279-286 | at depth 0 nothing changes; otherwise depth − 1, and dirty |
| FrameLoop.Editor.Escape | src/main.rs:288-294 | a press clears the selection; the snapshot is kept |
| FrameLoop.Editor.CreateBox | src/main.rs:297-327 | one created box is appended at the end under a fresh id, and the frame is dirty |
| FrameLoop.Editor.Backspace | src/main.rs:329-341 | plain: reset the live selection's orientation; Shift: swap-remove it, after which the selection resolves to nothing; dirty is not set |
| FrameLoop.Editor.Translate | src/main.rs:345-463 | while a snapshot exists nothing changes; otherwise only the live selection's origin moves one step |
| FrameLoop.Editor.Rotate | src/main.rs:466-561 | also while dragging, the live selection's orientation is post-multiplied by the key's rotation |
| FrameLoop.Editor.DragUpdate | src/main.rs:604-615 | with a snapshot and a live selection only that box's origin changes, to the dragged origin; otherwise nothing |
| FrameLoop.Editor.HandleEvent | src/main.rs:185-564 | the new state is `FrameSteps.EventStep` of the old one: the event goes to the first arm of the match it fits, an unmatched event changes nothing; the invariant is kept |
| FrameLoop.Editor.HandleEvents | src/main.rs:185 | the frame's events are handled in order, each with the hit picked at the start of the frame (`FrameSteps.EventsStep`) |
| FrameLoop.Editor.Advance | src/main.rs:138-615 | the new state is `FrameSteps.FrameStep` of the old one: hover pass, clean flag, events, then drag with the recomputed ray |
| FrameLoop.Editor.Frame | src/main.rs:138-704 | the new state is `FrameSteps.FrameStep` of the old one; the outcome is the regeneration outcome for the final boxes, depth and dirty flag; a frame none of whose events may dirty it ends clean and yields `Unchanged` |
| FrameSteps.Picked | src/main.rs:140-151 | the id picked for hovering names a listed box, and nothing is picked iff the ray hits no box |
| FrameSteps.EventStepFrame | src/main.rs:185-564 | only a left release, a scroll, or a press of Right, Left, N, a translation key or a rotation key can change the dirty flag; an event no arm takes changes nothing; only an N press hands out an id, the next one |
| FrameSteps.QuietEventsKeepDirty | src/main.rs:185-564 | a run of events none of which may dirty the frame leaves the dirty flag as it was |
| FrameSteps.QuietFrameEndsClean | src/main.rs:152-652 | a frame none of whose events may dirty it ends with `render_dirty` false, so nothing is regenerated |
| FrameSteps.EventlessFrame | src/main.rs:138-615 | a frame without events keeps the selection, snapshot, depth and next id and ends clean; without a snapshot the list is the hover target of the picked box |
| FrameLoop.ZoomAfterDepthChange | src/main.rs:263-267 | a depth change followed by a zoom scroll in the same frame is not regenerated |
| EditorState.State.constructor | src/state/mod.rs:33-41 | the state starts at depth 0 with a new world and wireframes on |
| EditorState.State.Selection | src/state/mod.rs:90-92 | there is a selected box iff there is a selection; it is the listed box or the detached one |
| EditorState.State.NearestIntersection | src/state/mod.rs:51-76 | a hit names a listed box; None iff no box is hit |
| EditorState.State.SetSelection | src/input/translation.rs:30-39 | writing through the selection changes that box only, listed or detached |
| EditorState.State.IncreaseDepth | src/state/mod.rs:78-80 | depth + 1; nothing else changes |
| EditorState.State.DecreaseDepth | src/state/mod.rs:82-84 | depth − 1 (requires depth > 0); nothing else changes |
| EditorState.State.Select | src/state/mod.rs:94-96 | the selection becomes the given listed box |
| EditorState.State.Deselect | src/state/mod.rs:98-100 | the selection is cleared; the drag snapshot is kept |
| EditorState.State.Drag | src/state/mod.rs:102-104 | the snapshot is stored, and `is_dragging` holds |
| EditorState.State.StopDragging | src/state/mod.rs:106-108 | the snapshot is dropped, and `is_dragging` is false |
| EditorState.State.NewComponent | src/state/mod.rs:118-120 | the box is appended at the end under a fresh id; earlier entries and the selection are unchanged |
| EditorState.State.ToggleWireframes | src/state/mod.rs:126-128 | the flag is negated and nothing else changes, so two toggles restore it |
| EditorState.State.DeleteSelected | src/state/mod.rs:130-141 | with no selection nothing changes; otherwise the box is swap-removed but stays selected, detached, its fields kept |
| EditorState.State.DeleteSelectedAndDeselect | src/state/mod.rs:130-141 | the corrected delete: the box is swap-removed, the selection cleared, and deleting stays possible |
| EditorState.State.DragUpdate | src/state/mod.rs:143-155 | with a snapshot and a selection, only the selected box's origin changes, to the dragged origin; otherwise nothing |
| EditorState.DeleteTwiceAborts | src/state/mod.rs:134 | after one deletion of a listed selection, the `expect` condition of the next deletion fails |
| InputSelection.Select | src/input/selection.rs:9-41 | a left press is handled: a hit selects and snapshots, a miss deselects and keeps the snapshot; other events pass on, with no change |
| InputSelection.Deselect | src/input/selection.rs:44-56 | a plain Backspace press deletes as `delete_selected` does, and the count drops by 1 iff something was selected; other events pass on |
| InputTranslation.Translation | src/input/translation.rs:16-48 | handled iff it is a translation press and no drag is active; only the selection's origin moves one step; with no selection nothing changes |
| InputScale.Scale | src/input/scale.rs:16-63 | handled iff there is a selection, the event is a scroll and a scale key is held; only the scale changes, clamped at zero, and it stays non-negative |
| InputRotation.Rotation | src/input/rotation.rs:16-56 | rotation presses (also during a drag) turn the selection; a plain Backspace resets its orientation; other events pass on |
| InputLifecycle.Create | src/input/component_lifecycle.rs:11-50 | an N press appends exactly one created box at the end; other events pass on |
| InputLifecycle.Delete | src/input/component_lifecycle.rs:53-69 | every Escape event is handled, and only a press deselects |
| InputMisc.ToggleWireframes | src/input/misc.rs:11-19 | a Tab press flips the flag; other events pass on, with no change |
| InputMisc.IncreaseDepth | src/input/misc.rs:21-29 | a Right press adds 1 to depth; other events pass on |
| InputMisc.DecreaseDepth | src/input/misc.rs:31-39 | a Right press (as written) subtracts 1 from depth, with depth > 0 required; other events pass on |

## Left out

- Drawing, text and the scene graph are left out, because they are pure output: `Component::apply`, scene-node linking and unlinking, `draw_wireframes`, `draw_overlay_text`, the matrix text dump, and all of `src/state/render_state.rs` except the initial wireframe flag. Because the drawing is left out, nothing the model shows depends on a detached box's fields.
- Camera unprojection, the camera-plane intersection and `toi_with_ray` are foreign geometry. The model takes them as inputs: the rays, `planeToi` and `Picking.RayCaster`.
- The split-out handlers use several names the source never defines: `mouse_projection`, `fine`, `camera`, `window` and `components`. The rays, `fine` and the creation ray are parameters, and `components` is the state's box list.
- Quaternion and matrix arithmetic are floating-point linear algebra, so they stay abstract: rotations are symbolic, and transforms belong to any monoid of the caller. This includes the decomposition of each product matrix into translation, scale and rotation (`src/main.rs:704-724`).
- HSL hue shifting (the C scroll in `src/main.rs:246-262`, and `src/input/color.rs`) relies on colour-space conversion. It is an oracle `(colour, degrees) -> colour`.
- `src/input/camera.rs` and the camera's zoom are a thin wrapper over the camera; the zoom is modelled only through its effect on `render_dirty`.
- The point-cloud fallback is not implemented in the source: it is a comment and `continue`.
- `process_input` (`src/input/mod.rs:23-25`) has an empty body, and no order of the handlers is defined. Each handler is modelled on its own.
- The `Rc`/`RefCell`/`Weak` borrow mechanics are not modelled: ownership is a list of entries with ids, plus a detached entry in the strong-selection state.
- f32 rounding, NaN, and the `partial_cmp` fallback to `Less` are not modelled. The reals are exact, so all comparisons are total.
- FrameLoop.Editor.Frame: gates on the exact cube count (the corrected gate of the first Findings row), not the wrapped count of `src/main.rs:649`.
- Drag.DragStartIsAnchored: holds only for numerics that obey the exact laws in `Drag.Lawful`; floating-point results are equal only within rounding.
- InputSelection.Deselect: the source's `match` has no fallback arm, so it does not compile. Events other than a plain Backspace press are modelled as passing on.
- InputLifecycle.Delete: the source's `match` has no fallback arm, so it does not compile. Events other than Escape are modelled as passing on.
- InputScale.Scale: the fallback `Continue` when no scale key reads as pressed (`src/input/scale.rs:52-54`) cannot be reached once a scale key is held, and it is not modelled separately.

## Findings

| source | as written | input that shows it | evidently intended | confidence | as-written member | corrected member |
|---|---|---|---|---|---|---|
| src/main.rs:649,656 | `components.len().pow(iteration_depth as u32 + 1)` wraps at 2^64 in a release build, so the `> MAX_CUBES` gate can pass (a debug build panics instead) | 2 boxes, Right pressed 63 times: the count wraps to 0 and the frame enumerates 2^64 tuples | gate on the exact count N^(depth+1) | not executed | Fractal.CubeCountAsWritten (shown by Fractal.CubeCountAsWrittenAdmitsHugeRender) | Fractal.Regenerate (bounded by Fractal.RegenerateWithinBudget) |
| src/state/mod.rs:130-141 | `delete_selected` removes the box but leaves it selected; the next delete's `position(..).expect(..)` then fails | select a box, then press plain Backspace twice | clear the selection on delete, as the frame loop's `Weak` does implicitly | not executed | EditorState.State.DeleteSelected (shown by EditorState.DeleteTwiceAborts) | EditorState.State.DeleteSelectedAndDeselect |
