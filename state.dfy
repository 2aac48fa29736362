/** The editor state the split-out input handlers work on (`State` of the state
    module): the world, the iteration depth and the wireframe flag. Unlike the
    frame loop, this state holds its selection as a strong reference, so a box
    removed from the list while selected stays alive, selected and editable. */
module EditorState {
  import opened Options
  import opened Linear
  import opened Components
  import Picking
  import opened World
  import opened Drag

  class State {
    var iterationDepth: nat
    var world: WorldState
    /** `render_state.wireframes_enabled`. */
    var wireframesEnabled: bool
    /** The id the next added box receives. */
    var nextId: nat
    /** The selected box after it has been removed from the list: the strong
        selection is then its only owner. */
    var detached: Option<Shared>

    /** Ids in the list are valid; a selection names a box that exists, in the
        list or detached; a detached box is selected and no longer listed. */
    ghost predicate Valid()
      reads this
    {
      IdsValid(world.components, nextId) &&
      (world.selection.Some? ==>
         world.selection.value < nextId &&
         (IndexOf(world.components, world.selection.value).Some? || detached.Some?)) &&
      (detached.Some? ==>
         world.selection == Some(detached.value.id) &&
         IndexOf(world.components, detached.value.id).None?)
    }

    constructor ()
      ensures Valid()
      ensures iterationDepth == 0 && world == World.New() && wireframesEnabled
      ensures detached.None?
    {
      iterationDepth := 0;
      world := World.New();
      wireframesEnabled := true;
      nextId := 0;
      detached := None;
    }

    /** The position of the selected box in the list, if it is listed. */
    function SelectedIndex(): Option<nat>
      reads this
    {
      Resolve(world.components, world.selection)
    }

    /** `selection()`: the fields of the selected box, wherever it lives. There
        is one exactly when there is a selection. */
    function Selection(): (r: Option<Component>)
      requires Valid()
      reads this
      ensures r.None? <==> world.selection.None?
      ensures SelectedIndex().Some? ==> r == Some(world.components[SelectedIndex().value].val)
      ensures world.selection.Some? && SelectedIndex().None? ==> detached.Some? && r == Some(detached.value.val)
    {
      match SelectedIndex()
      case Some(i) => Some(world.components[i].val)
      case None => if detached.Some? then Some(detached.value.val) else None
    }

    /** `is_dragging`. */
    predicate IsDragging()
      reads this
    {
      world.dragState.Some?
    }

    /** `nearest_intersection` with the mouse ray it projects passed in: the id
        of the nearest listed box the ray hits, and the impact point. */
    function NearestIntersection(ray: Ray, cast: Picking.RayCaster): (r: Option<(nat, Vec3)>)
      requires Valid()
      reads this
      ensures r.Some? ==> IndexOf(world.components, r.value.0).Some?
      ensures r.None? <==> forall i :: 0 <= i < |world.components| ==> Picking.Tois(world.components, ray, cast)[i].None?
    {
      Picking.NearestIntersectionIsNearest(world.components, ray, cast);
      Picking.NearestIntersection(world.components, ray, cast)
    }

    /** Everything but the selected box's fields is as before. */
    twostate predicate OnlySelectionChanged()
      reads this
    {
      world.selection == old(world.selection) && world.dragState == old(world.dragState) &&
      iterationDepth == old(iterationDepth) && wireframesEnabled == old(wireframesEnabled) &&
      nextId == old(nextId) &&
      |world.components| == |old(world.components)| &&
      (forall i :: 0 <= i < |world.components| ==>
         world.components[i].id == old(world.components[i].id) &&
         (world.selection != Some(world.components[i].id) ==> world.components[i] == old(world.components[i]))) &&
      (detached.Some? <==> old(detached).Some?) &&
      (detached.Some? ==> detached.value.id == old(detached).value.id)
    }

    /** Writes through the selection: the selected box gets the new fields,
        whether it is listed or detached. */
    method SetSelection(c: Component)
      requires Valid() && world.selection.Some?
      modifies this
      ensures Valid()
      ensures OnlySelectionChanged()
      ensures Selection() == Some(c)
    {
      var sel := SelectedIndex();
      if sel.Some? {
        var i := sel.value;
        UpdateWellFormed(world.components, nextId, i, c);
        IndexOfUnique(world.components[i := world.components[i].(val := c)], i);
        world := world.(components := world.components[i := world.components[i].(val := c)]);
      } else {
        detached := Some(detached.value.(val := c));
      }
    }

    /** `increase_depth`. */
    method IncreaseDepth()
      requires Valid()
      modifies this
      ensures Valid()
      ensures iterationDepth == old(iterationDepth) + 1
      ensures world == old(world) && detached == old(detached) && nextId == old(nextId)
      ensures wireframesEnabled == old(wireframesEnabled)
    {
      iterationDepth := iterationDepth + 1;
    }

    /** `decrease_depth`: at depth 0 the unsigned decrement panics in a debug
        build and wraps to `usize::MAX` in a release build, so the model
        requires depth > 0. */
    method DecreaseDepth()
      requires Valid() && iterationDepth > 0
      modifies this
      ensures Valid()
      ensures iterationDepth + 1 == old(iterationDepth)
      ensures world == old(world) && detached == old(detached) && nextId == old(nextId)
      ensures wireframesEnabled == old(wireframesEnabled)
    {
      iterationDepth := iterationDepth - 1;
    }

    /** `select`: the box, which the caller holds and is therefore listed,
        becomes the selection; a previously detached selection is dropped. */
    method Select(id: nat)
      requires Valid() && IndexOf(world.components, id).Some?
      modifies this
      ensures Valid()
      ensures world == old(world).(selection := Some(id)) && detached.None?
      ensures Selection() == Some(world.components[IndexOf(world.components, id).value].val)
      ensures iterationDepth == old(iterationDepth) && nextId == old(nextId)
      ensures wireframesEnabled == old(wireframesEnabled)
    {
      world := world.(selection := Some(id));
      detached := None;
    }

    /** `deselect`: no selection; a drag snapshot is kept. */
    method Deselect()
      requires Valid()
      modifies this
      ensures Valid()
      ensures world == old(world).(selection := None) && detached.None?
      ensures Selection().None?
      ensures iterationDepth == old(iterationDepth) && nextId == old(nextId)
      ensures wireframesEnabled == old(wireframesEnabled)
    {
      world := world.(selection := None);
      detached := None;
    }

    /** `drag`: record the snapshot. */
    method Drag(ds: DragState)
      requires Valid()
      modifies this
      ensures Valid()
      ensures world == old(world).(dragState := Some(ds)) && IsDragging()
      ensures detached == old(detached) && iterationDepth == old(iterationDepth) && nextId == old(nextId)
      ensures wireframesEnabled == old(wireframesEnabled)
    {
      world := world.(dragState := Some(ds));
    }

    /** `stop_dragging`: drop the snapshot. */
    method StopDragging()
      requires Valid()
      modifies this
      ensures Valid()
      ensures world == old(world).(dragState := None) && !IsDragging()
      ensures detached == old(detached) && iterationDepth == old(iterationDepth) && nextId == old(nextId)
      ensures wireframesEnabled == old(wireframesEnabled)
    {
      world := world.(dragState := None);
    }

    /** `new_component`: append the box under a fresh id; the selection still
        names the same box with the same fields. */
    method NewComponent(c: Component)
      requires Valid()
      modifies this
      ensures Valid()
      ensures world == old(world).(components := old(world.components) + [Shared(old(nextId), c)])
      ensures nextId == old(nextId) + 1
      ensures Selection() == old(Selection())
      ensures detached == old(detached) && iterationDepth == old(iterationDepth)
      ensures wireframesEnabled == old(wireframesEnabled)
    {
      var s := Shared(nextId, c);
      AppendWellFormed(world.components, nextId, c);
      if world.selection.Some? {
        IndexOfAppend(world.components, s, world.selection.value);
      }
      if detached.Some? {
        IndexOfAppend(world.components, s, detached.value.id);
      }
      world := world.(components := world.components + [s]);
      nextId := nextId + 1;
    }

    /** `toggle_wireframes`: flip the flag, so toggling twice restores it. */
    method ToggleWireframes()
      requires Valid()
      modifies this
      ensures Valid()
      ensures wireframesEnabled == !old(wireframesEnabled)
      ensures world == old(world) && detached == old(detached)
      ensures iterationDepth == old(iterationDepth) && nextId == old(nextId)
    {
      wireframesEnabled := !wireframesEnabled;
    }

    /** The condition `delete_selected` checks with `expect`: no selection, or
        a selection that is still listed. */
    predicate CanDelete()
      reads this
    {
      world.selection.None? || SelectedIndex().Some?
    }

    /** `delete_selected`, as written: the selected box is swap-removed from
        the list but stays selected, now detached, with its fields unchanged.
        When the selection is not listed the `expect` aborts the program. */
    method DeleteSelected()
      requires Valid() && CanDelete()
      modifies this
      ensures Valid()
      ensures old(world.selection).None? ==> world == old(world) && detached == old(detached)
      ensures old(world.selection).Some? ==>
                var i := old(SelectedIndex()).value;
                world == old(world).(components := SwapRemove(old(world.components), i)) &&
                detached == Some(old(world.components)[i])
      ensures Selection() == old(Selection()) && SelectedIndex().None?
      ensures iterationDepth == old(iterationDepth) && nextId == old(nextId)
      ensures wireframesEnabled == old(wireframesEnabled)
    {
      var sel := SelectedIndex();
      if sel.Some? {
        var i := sel.value;
        detached := Some(world.components[i]);
        SwapRemoveWellFormed(world.components, nextId, i);
        world := world.(components := SwapRemove(world.components, i));
      }
    }

    /** `delete_selected` as evidently intended: remove the selected box and
        clear the selection, so that deleting is always possible again. */
    method DeleteSelectedAndDeselect()
      requires Valid()
      modifies this
      ensures Valid() && CanDelete()
      ensures old(SelectedIndex()).None? ==> world.components == old(world.components)
      ensures old(SelectedIndex()).Some? ==> world.components == SwapRemove(old(world.components), old(SelectedIndex()).value)
      ensures world.selection.None? && detached.None? && world.dragState == old(world.dragState)
      ensures iterationDepth == old(iterationDepth) && nextId == old(nextId)
      ensures wireframesEnabled == old(wireframesEnabled)
    {
      var sel := SelectedIndex();
      if sel.Some? {
        SwapRemoveWellFormed(world.components, nextId, sel.value);
        world := world.(components := SwapRemove(world.components, sel.value));
      }
      world := world.(selection := None);
      detached := None;
    }

    /** `drag_update` with the mouse ray passed in: with a snapshot and a
        selection, the selected box moves so that its turned handle lands on
        the terminus; otherwise nothing changes. */
    method DragUpdate(ray: Ray, num: Numerics)
      requires Valid()
      modifies this
      ensures Valid()
      ensures old(world.dragState).None? || old(world.selection).None? ==> unchanged(this)
      ensures old(world.dragState).Some? && old(world.selection).Some? ==>
                OnlySelectionChanged() &&
                var c := old(Selection()).value;
                Selection() == Some(c.(origin := DraggedOrigin(c, old(world.dragState).value, ray, num)))
    {
      if world.dragState.Some? && world.selection.Some? {
        var c := Selection().value;
        SetSelection(c.(origin := DraggedOrigin(c, world.dragState.value, ray, num)));
      }
    }
  }

  /** Deleting twice with the state as written: after one deletion the box is
      still selected but no longer listed, so a second deletion would trip the
      `expect`. */
  method DeleteTwiceAborts(s: State)
    requires s.Valid() && s.SelectedIndex().Some?
    modifies s
    ensures s.Valid() && !s.CanDelete()
  {
    s.DeleteSelected();
  }
}
