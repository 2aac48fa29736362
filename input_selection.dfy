/** The selection handlers: a left press picks a box and starts dragging it,
    a plain Backspace press deletes the selection. */
module InputSelection {
  import opened Options
  import opened Linear
  import opened Events
  import opened Components
  import Picking
  import opened World
  import opened Drag
  import opened EditorState

  /** `select`: on a left press, pick with the mouse ray. A hit selects the
      box and takes the drag snapshot from its fields; a miss deselects and
      leaves any snapshot. Every other event passes on. */
  method Select(state: State, e: WindowEvent, ray: Ray, cast: Picking.RayCaster, num: Numerics)
    returns (r: InputResult)
    requires state.Valid()
    modifies state
    ensures state.Valid()
    ensures r == Handled <==> e == MouseEvent(MouseButtonLeft, Press)
    ensures r == Continue ==> unchanged(state)
    ensures r == Handled && old(state.NearestIntersection(ray, cast)).None? ==>
              state.world == old(state.world).(selection := None) && state.Selection().None?
    ensures r == Handled && old(state.NearestIntersection(ray, cast)).Some? ==>
              var (id, impact) := old(state.NearestIntersection(ray, cast)).value;
              var c := old(state.world.components)[IndexOf(old(state.world.components), id).value].val;
              state.world == old(state.world).(selection := Some(id), dragState := Some(DragStart(c, impact, ray, num))) &&
              state.Selection() == Some(c)
    ensures state.iterationDepth == old(state.iterationDepth) && state.nextId == old(state.nextId)
    ensures state.wireframesEnabled == old(state.wireframesEnabled)
  {
    if e == MouseEvent(MouseButtonLeft, Press) {
      var hit := state.NearestIntersection(ray, cast);
      if hit.Some? {
        var (id, impact) := hit.value;
        state.Select(id);
        var c := state.Selection().value;
        state.Drag(DragStart(c, impact, ray, num));
      } else {
        state.Deselect();
      }
      r := Handled;
    } else {
      r := Continue;
    }
  }

  /** A Backspace press without Shift. */
  predicate IsPlainBackspace(e: WindowEvent) {
    e == KeyEvent(Key.Backspace, Press, false)
  }

  /** `deselect`: a plain Backspace press deletes the selection, with the
      deleted box staying selected. Every other event passes on. */
  method Deselect(state: State, e: WindowEvent) returns (r: InputResult)
    requires state.Valid()
    requires IsPlainBackspace(e) ==> state.CanDelete()
    modifies state
    ensures state.Valid()
    ensures r == Handled <==> IsPlainBackspace(e)
    ensures r == Continue ==> unchanged(state)
    ensures r == Handled ==>
              state.Selection() == old(state.Selection()) && state.SelectedIndex().None? &&
              (old(state.world.selection).None? ==> state.world == old(state.world)) &&
              (old(state.world.selection).Some? ==>
                 state.world.components == SwapRemove(old(state.world.components), old(state.SelectedIndex()).value)) &&
              (|state.world.components| + 1 == |old(state.world.components)| <==> old(state.world.selection).Some?)
  {
    if IsPlainBackspace(e) {
      state.DeleteSelected();
      r := Handled;
    } else {
      r := Continue;
    }
  }
}
