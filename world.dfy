/** The editor's world: the boxes, the drag snapshot and the selection. */
module World {
  import opened Options
  import opened Linear
  import opened Components

  /** What a left press records about the box it grabbed: the box's
      orientation at that moment, the offset from the box's origin to the
      grabbed point, and the distance from the camera to that point. Equality
      is field-wise, as the derived `PartialEq` compares. */
  datatype DragState = DragState(originOrientation: Quat, localHandleOffset: Vec3, cameraDist: real)

  /** `WorldState` without its scene-graph groups. The selection names a box
      by its id; it refers to at most one box. */
  datatype WorldState = WorldState(components: seq<Shared>, dragState: Option<DragState>, selection: Option<nat>)

  /** `WorldState::new`: no boxes, no drag, no selection. */
  function New(): WorldState {
    WorldState([], None, None)
  }

  /** A new world is well formed for any first id and any ray picks nothing in
      it. */
  lemma NewWorldIsIdle(nextId: nat)
    ensures WellFormed(New().components, nextId)
    ensures New().dragState.None? && New().selection.None?
    ensures forall id :: IndexOf(New().components, id).None?
  {
  }

  /** With valid ids a selection names at most one listed box. */
  lemma SelectionIsAtMostOneBox(w: WorldState, nextId: nat)
    requires IdsValid(w.components, nextId)
    ensures w.selection.Some? ==>
              forall i, j ::
                0 <= i < |w.components| && 0 <= j < |w.components| &&
                w.components[i].id == w.selection.value && w.components[j].id == w.selection.value
                ==> i == j
  {
  }
}
