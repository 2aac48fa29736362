/** The editor as the frame loop of the program runs it: the loop's mutable
    locals become the fields of `Editor`, each arm of the event match becomes a
    method, and `Frame` is one pass of the loop. */
module FrameLoop {
  import opened Options
  import opened Linear
  import opened Events
  import opened Components
  import opened Controls
  import opened Picking
  import opened Fractal
  import opened World
  import opened Drag
  import opened FrameSteps
  import Constants

  class Editor {
    var components: seq<Shared>
    /** The `Weak` selection: the id of the selected box, which resolves to
        nothing once that box has been removed. */
    var selection: Option<nat>
    var dragState: Option<DragState>
    var iterationDepth: nat
    var renderDirty: bool
    /** The id the next created box receives. */
    var nextId: nat

    ghost predicate Valid()
      reads this
    {
      WellFormed(components, nextId)
    }

    /** The loop's state as a value. */
    function Snap(): Loop
      reads this
    {
      Loop(components, selection, dragState, iterationDepth, renderDirty, nextId)
    }

    /** `selection.upgrade()`: the position of the selected box, if it is
        still in the list. */
    function Selected(): Option<nat>
      reads this
    {
      Resolve(components, selection)
    }

    constructor ()
      ensures Valid()
      ensures components == [] && selection.None? && dragState.None?
      ensures iterationDepth == 0 && !renderDirty
    {
      components := [];
      selection := None;
      dragState := None;
      iterationDepth := 0;
      renderDirty := false;
      nextId := 0;
    }

    /** The hover pass: the picked box is marked hovered first, then every other
        box is marked not hovered. */
    method UpdateHover(picked: Option<nat>)
      requires Valid()
      requires picked.Some? ==> IndexOf(components, picked.value).Some?
      modifies this
      ensures Valid()
      ensures components == HoverTarget(old(components), picked)
      ensures selection == old(selection) && dragState == old(dragState) && nextId == old(nextId)
      ensures iterationDepth == old(iterationDepth) && renderDirty == old(renderDirty)
      ensures Snap() == HoverStep(old(Snap()), picked)
    {
      ghost var target := HoverTarget(components, picked);
      HoverTargetExactlyPicked(components, nextId, picked);
      var cs := components;
      if picked.Some? {
        var k := IndexOf(cs, picked.value).value;
        cs := cs[k := cs[k].(val := cs[k].val.(hovered := true))];
      }
      var i := 0;
      while i < |cs|
        invariant 0 <= i <= |cs| == |components|
        invariant forall j :: 0 <= j < i ==> cs[j] == target[j]
        invariant forall j :: i <= j < |cs| ==>
                    cs[j] == (if picked == Some(components[j].id) then target[j] else components[j])
      {
        if picked != Some(cs[i].id) {
          cs := cs[i := cs[i].(val := cs[i].val.(hovered := false))];
        }
        i := i + 1;
      }
      components := cs;
    }

    /** Left press: on a hit, select the hit box and, if it is still in the
        list, take the drag snapshot; on a miss, clear the selection and leave
        any drag snapshot as it is. */
    method PressLeft(hit: Option<(nat, Vec3)>, ray: Ray, num: Numerics)
      requires Valid()
      modifies this
      ensures Valid()
      ensures components == old(components) && nextId == old(nextId)
      ensures iterationDepth == old(iterationDepth) && renderDirty == old(renderDirty)
      ensures hit.None? ==> selection.None? && dragState == old(dragState)
      ensures hit.Some? ==> selection == Some(hit.value.0)
      ensures hit.Some? && IndexOf(components, hit.value.0).Some? ==>
                dragState == Some(DragStart(components[IndexOf(components, hit.value.0).value].val, hit.value.1, ray, num))
      ensures hit.Some? && IndexOf(components, hit.value.0).None? ==> dragState == old(dragState)
      ensures Snap() == PressLeftStep(old(Snap()), hit, ray, num)
    {
      match hit
      case Some((id, impact)) =>
        selection := Some(id);
        var found := IndexOf(components, id);
        if found.Some? {
          dragState := Some(DragStart(components[found.value].val, impact, ray, num));
        }
      case None =>
        selection := None;
    }

    /** Left release: the drag ends and the frame regenerates. */
    method ReleaseLeft()
      requires Valid()
      modifies this
      ensures Valid()
      ensures dragState.None? && renderDirty
      ensures components == old(components) && selection == old(selection) && nextId == old(nextId)
      ensures iterationDepth == old(iterationDepth)
      ensures Snap() == ReleaseLeftStep(old(Snap()))
    {
      renderDirty := true;
      dragState := None;
    }

    /** Scroll: with a live selection, a held scale key rescales it (B, then X,
        Y, Z), else a held C shifts its hue, else the scroll zooms the camera
        and clears the frame's dirty flag. Without a live selection the scroll
        only zooms. */
    method Scroll(offset: real, held: set<Key>, hueShift: (Vec3, real) -> Vec3)
      requires Valid()
      modifies this
      ensures Valid()
      ensures selection == old(selection) && dragState == old(dragState) && nextId == old(nextId)
      ensures iterationDepth == old(iterationDepth)
      ensures old(Selected()).None? ==> components == old(components) && renderDirty == old(renderDirty)
      ensures old(Selected()).Some? && ScaleKeyHeld(held).Some? ==>
                var i := old(Selected()).value;
                var delta := ScaleDelta(LeftShift in held || RightShift in held, offset);
                renderDirty &&
                components == old(components)[i := old(components)[i].(val := Rescaled(old(components)[i].val, ScaleKeyHeld(held).value, delta))]
      ensures old(Selected()).Some? && ScaleKeyHeld(held).None? && C in held ==>
                var i := old(Selected()).value;
                var angle := HueAngle(LeftShift in held || RightShift in held, offset);
                renderDirty &&
                components == old(components[i := components[i].(val := components[i].val.(color := hueShift(components[i].val.color, angle)))])
      ensures old(Selected()).Some? && ScaleKeyHeld(held).None? && C !in held ==>
                !renderDirty && components == old(components)
      ensures Snap() == ScrollStep(old(Snap()), offset, held, hueShift)
    {
      var fine := LeftShift in held || RightShift in held;
      var sel := Selected();
      if sel.Some? {
        var i := sel.value;
        var c := components[i].val;
        var key := ScaleKeyHeld(held);
        if key.Some? {
          ScrollScale(i, key.value, ScaleDelta(fine, offset));
        } else if C in held {
          ScrollHue(i, c.(color := hueShift(c.color, HueAngle(fine, offset))));
        } else {
          renderDirty := false;
        }
      }
    }

    /** The scale arm of a scroll: rescale box i along the axes of the held key. */
    method ScrollScale(i: nat, key: Key, delta: real)
      requires Valid() && i < |components| && key in ScaleKeys
      modifies this
      ensures Valid()
      ensures Snap() == SetBox(old(Snap()), i, Rescaled(old(components)[i].val, key, delta)).(renderDirty := true)
    {
      var r := Rescaled(components[i].val, key, delta);
      RescaledNonNegative(components[i].val, key, delta);
      UpdateWellFormed(components, nextId, i, r);
      components := components[i := components[i].(val := r)];
      renderDirty := true;
    }

    /** The colour arm of a scroll: box i takes the shifted colour, which
        leaves its scale as it was. */
    method ScrollHue(i: nat, r: Component)
      requires Valid() && i < |components| && r.scale == components[i].val.scale
      modifies this
      ensures Valid()
      ensures Snap() == SetBox(old(Snap()), i, r).(renderDirty := true)
    {
      UpdateWellFormed(components, nextId, i, r);
      components := components[i := components[i].(val := r)];
      renderDirty := true;
    }

    /** Right arrow: one level deeper. */
    method IncreaseDepth()
      requires Valid()
      modifies this
      ensures Valid()
      ensures iterationDepth == old(iterationDepth) + 1 && renderDirty
      ensures components == old(components) && selection == old(selection)
      ensures dragState == old(dragState) && nextId == old(nextId)
      ensures Snap() == IncreaseDepthStep(old(Snap()))
    {
      iterationDepth := iterationDepth + 1;
      renderDirty := true;
    }

    /** Left arrow: one level shallower, nothing at all at depth 0. */
    method DecreaseDepth()
      requires Valid()
      modifies this
      ensures Valid()
      ensures old(iterationDepth) == 0 ==> iterationDepth == 0 && renderDirty == old(renderDirty)
      ensures old(iterationDepth) > 0 ==> iterationDepth == old(iterationDepth) - 1 && renderDirty
      ensures components == old(components) && selection == old(selection)
      ensures dragState == old(dragState) && nextId == old(nextId)
      ensures Snap() == DecreaseDepthStep(old(Snap()))
    {
      if iterationDepth > 0 {
        iterationDepth := iterationDepth - 1;
        renderDirty := true;
      }
    }

    /** Escape: a press clears the selection; a drag snapshot stays. */
    method Escape(action: Action)
      requires Valid()
      modifies this
      ensures Valid()
      ensures selection == (if action == Press then None else old(selection))
      ensures components == old(components) && dragState == old(dragState) && nextId == old(nextId)
      ensures iterationDepth == old(iterationDepth) && renderDirty == old(renderDirty)
      ensures Snap() == EscapeStep(old(Snap()), action)
    {
      if action == Press {
        selection := None;
      }
    }

    /** N press: append a new box, with a fresh id, where the creation ray
        meets the camera plane; Shift doubles its scale. */
    method CreateBox(shift: bool, createRay: Ray, planeToi: Option<real>)
      requires Valid()
      requires planeToi.Some?
      modifies this
      ensures Valid()
      ensures components == old(components) + [Shared(old(nextId), Created(createRay.At(planeToi.value), shift))]
      ensures nextId == old(nextId) + 1 && renderDirty
      ensures selection == old(selection) && dragState == old(dragState)
      ensures iterationDepth == old(iterationDepth)
      ensures Snap() == CreateBoxStep(old(Snap()), shift, createRay, planeToi)
    {
      var c := Created(createRay.At(planeToi.value), shift);
      AppendWellFormed(components, nextId, c);
      components := components + [Shared(nextId, c)];
      nextId := nextId + 1;
      renderDirty := true;
    }

    /** Backspace press on a live selection: without Shift the box's
        orientation is reset; with Shift the box is swap-removed from the list,
        after which the selection resolves to nothing. The dirty flag is not
        set. */
    method Backspace(shift: bool)
      requires Valid()
      modifies this
      ensures Valid()
      ensures selection == old(selection) && dragState == old(dragState) && nextId == old(nextId)
      ensures iterationDepth == old(iterationDepth) && renderDirty == old(renderDirty)
      ensures old(Selected()).None? ==> components == old(components)
      ensures old(Selected()).Some? && !shift ==>
                var i := old(Selected()).value;
                components == old(components)[i := old(components)[i].(val := ResetOrientation(old(components)[i].val))]
      ensures old(Selected()).Some? && shift ==>
                components == SwapRemove(old(components), old(Selected()).value) && Selected().None?
      ensures Snap() == BackspaceStep(old(Snap()), shift)
    {
      var sel := Selected();
      if sel.Some? {
        var i := sel.value;
        if !shift {
          var r := ResetOrientation(components[i].val);
          UpdateWellFormed(components, nextId, i, r);
          components := components[i := components[i].(val := r)];
        } else {
          SwapRemoveWellFormed(components, nextId, i);
          components := SwapRemove(components, i);
        }
      }
    }

    /** A translation key press: nothing while a drag snapshot exists;
        otherwise the live selection moves one step along the key's axis. */
    method Translate(k: Key, shift: bool)
      requires Valid()
      requires k in TranslationKeys
      modifies this
      ensures Valid()
      ensures selection == old(selection) && dragState == old(dragState) && nextId == old(nextId)
      ensures iterationDepth == old(iterationDepth)
      ensures old(dragState).Some? || old(Selected()).None? ==>
                components == old(components) && renderDirty == old(renderDirty)
      ensures old(dragState).None? && old(Selected()).Some? ==>
                var i := old(Selected()).value;
                renderDirty &&
                components == old(components)[i := old(components)[i].(val := Translated(old(components)[i].val, k, TranslateFactor(shift)))]
      ensures Snap() == TranslateStep(old(Snap()), k, shift)
    {
      if dragState.None? {
        var sel := Selected();
        if sel.Some? {
          var i := sel.value;
          var r := Translated(components[i].val, k, TranslateFactor(shift));
          UpdateWellFormed(components, nextId, i, r);
          components := components[i := components[i].(val := r)];
          renderDirty := true;
        }
      }
    }

    /** A rotation key press, allowed while dragging: the live selection turns
        by the key's rotation, applied after its current orientation. */
    method Rotate(k: Key, shift: bool)
      requires Valid()
      requires k in RotationKeys
      modifies this
      ensures Valid()
      ensures selection == old(selection) && dragState == old(dragState) && nextId == old(nextId)
      ensures iterationDepth == old(iterationDepth)
      ensures old(Selected()).None? ==> components == old(components) && renderDirty == old(renderDirty)
      ensures old(Selected()).Some? ==>
                var i := old(Selected()).value;
                renderDirty &&
                components == old(components)[i := old(components)[i].(val := Rotated(old(components)[i].val, FrameLoopRotation(k, RotateFactor(shift))))]
      ensures Snap() == RotateStep(old(Snap()), k, shift)
    {
      var sel := Selected();
      if sel.Some? {
        var i := sel.value;
        var r := Rotated(components[i].val, FrameLoopRotation(k, RotateFactor(shift)));
        UpdateWellFormed(components, nextId, i, r);
        components := components[i := components[i].(val := r)];
        renderDirty := true;
      }
    }

    /** The drag update after the events: with a snapshot and a live
        selection, the selected box moves so that its turned handle is at the
        camera distance along the new mouse ray; otherwise nothing changes. */
    method DragUpdate(ray: Ray, num: Numerics)
      requires Valid()
      modifies this
      ensures Valid()
      ensures selection == old(selection) && dragState == old(dragState) && nextId == old(nextId)
      ensures iterationDepth == old(iterationDepth) && renderDirty == old(renderDirty)
      ensures old(dragState).None? || old(Selected()).None? ==> components == old(components)
      ensures old(dragState).Some? && old(Selected()).Some? ==>
                var i := old(Selected()).value;
                var c := old(components)[i].val;
                components == old(components)[i := old(components)[i].(val := c.(origin := DraggedOrigin(c, old(dragState).value, ray, num)))]
      ensures Snap() == DragStep(old(Snap()), ray, num)
    {
      var sel := Selected();
      if dragState.Some? && sel.Some? {
        var i := sel.value;
        var c := components[i].val;
        var r := c.(origin := DraggedOrigin(c, dragState.value, ray, num));
        UpdateWellFormed(components, nextId, i, r);
        components := components[i := components[i].(val := r)];
      }
    }

    /** One event, dispatched to the first arm of the match it fits. */
    method HandleEvent(e: WindowEvent, hit: Option<(nat, Vec3)>, ray: Ray, s: Surroundings)
      requires Valid()
      requires IsKeyPress(e, N) ==> s.planeToi.Some?
      modifies this
      ensures Valid()
      ensures Snap() == EventStep(old(Snap()), e, hit, ray, s)
    {
      match e
      case MouseEvent(button, action) =>
        if button == MouseButtonLeft && action == Press {
          PressLeft(hit, ray, s.num);
        } else if button == MouseButtonLeft && action == Release {
          ReleaseLeft();
        }
      case ScrollEvent(offset) =>
        Scroll(offset, s.held, s.hueShift);
      case KeyEvent(k, action, shift) =>
        if k == Key.Escape {
          Escape(action);
        } else if action == Press {
          if k == Right {
            IncreaseDepth();
          } else if k == Left {
            DecreaseDepth();
          } else if k == N {
            CreateBox(shift, s.createRay, s.planeToi);
          } else if k == Key.Backspace {
            Backspace(shift);
          } else if k in TranslationKeys {
            Translate(k, shift);
          } else if k in RotationKeys {
            Rotate(k, shift);
          }
        }
      case OtherEvent =>
    }

    /** The event loop of one frame: every event in order, each with the hit
        picked at the start of the frame. */
    method HandleEvents(events: seq<WindowEvent>, hit: Option<(nat, Vec3)>, ray: Ray, s: Surroundings)
      requires Valid()
      requires PlaneFound(events, s)
      modifies this
      ensures Valid()
      ensures Snap() == EventsStep(old(Snap()), events, hit, ray, s)
    {
      ghost var start := Snap();
      var i := 0;
      while i < |events|
        invariant 0 <= i <= |events|
        invariant Valid()
        invariant PlaneFound(events[..i], s)
        invariant Snap() == EventsStep(start, events[..i], hit, ray, s)
      {
        EventsStepSnoc(start, events, i, hit, ray, s);
        HandleEvent(events[i], hit, ray, s);
        i := i + 1;
      }
      assert events[..i] == events;
    }

    /** The state changes of one pass of the frame loop: pick with the mouse
        ray, update the hover flags, clear the dirty flag, handle the frame's
        events in order and apply the drag with the ray recomputed after the
        events. */
    method Advance(ray: Ray, events: seq<WindowEvent>, rayAfter: Ray, s: Surroundings)
      requires Valid()
      requires PlaneFound(events, s)
      modifies this
      ensures Valid()
      ensures Snap() == FrameStep(old(Snap()), ray, events, rayAfter, s)
    {
      var hit := NearestIntersection(components, ray, s.cast);
      NearestIntersectionIsNearest(components, ray, s.cast);
      UpdateHover(if hit.Some? then Some(hit.value.0) else None);
      renderDirty := false;
      HandleEvents(events, hit, ray, s);
      DragUpdate(rayAfter, s.num);
    }

    /** One pass of the frame loop: the state changes, then the fractal
        instances regenerated from the exact cube count and the frame loop's
        ceiling. */
    method Frame<M>(ray: Ray, events: seq<WindowEvent>, rayAfter: Ray, s: Surroundings,
                    m: Monoid<M>, transform: Component -> M)
      returns (outcome: RenderOutcome<M>)
      requires Valid()
      requires PlaneFound(events, s)
      modifies this
      ensures Valid()
      ensures Snap() == FrameStep(old(Snap()), ray, events, rayAfter, s)
      ensures outcome == Regenerate(Boxes(components), iterationDepth, renderDirty, Constants.FrameLoopMaxCubes, m, transform)
      ensures (forall i :: 0 <= i < |events| ==> !MayDirty(events[i])) ==> !renderDirty && outcome == Unchanged
    {
      ghost var before := Snap();
      Advance(ray, events, rayAfter, s);
      if forall i :: 0 <= i < |events| ==> !MayDirty(events[i]) {
        QuietFrameEndsClean(before, ray, events, rayAfter, s);
      }
      outcome := Regenerate(Boxes(components), iterationDepth, renderDirty, Constants.FrameLoopMaxCubes, m, transform);
    }
  }

  /** The zoom arm of the scroll clears the dirty flag even when an earlier
      event of the same frame set it: a depth change followed in the same frame
      by a plain scroll over a live selection is not regenerated. */
  method ZoomAfterDepthChange(e: Editor, held: set<Key>, hueShift: (Vec3, real) -> Vec3)
    returns (outcome: RenderOutcome<int>)
    requires e.Valid() && e.Selected().Some?
    requires held * ScaleKeys == {} && C !in held
    modifies e
    ensures outcome == Unchanged
  {
    e.renderDirty := false;
    e.IncreaseDepth();
    assert e.renderDirty;
    e.Scroll(1.0, held, hueShift);
    outcome := Regenerate(Boxes(e.components), e.iterationDepth, e.renderDirty, Constants.FrameLoopMaxCubes,
                          Monoid((a: int, b: int) => a * b, 1), (c: Component) => 0);
  }
}
