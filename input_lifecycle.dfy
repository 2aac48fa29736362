/** The lifecycle handlers: N creates a box, Escape clears the selection. */
module InputLifecycle {
  import opened Options
  import opened Linear
  import opened Events
  import opened Components
  import opened Controls
  import opened EditorState

  /** `create`: an N press appends a new box where the unprojected mouse ray
      meets the camera plane, at time of impact `planeToi`; Shift doubles its
      scale. A ray that misses the plane aborts the program (`expect`). Every
      other event passes on. */
  method Create(state: State, e: WindowEvent, createRay: Ray, planeToi: Option<real>) returns (r: InputResult)
    requires state.Valid()
    requires IsKeyPress(e, N) ==> planeToi.Some?
    modifies state
    ensures state.Valid()
    ensures r == Handled <==> IsKeyPress(e, N)
    ensures r == Continue ==> unchanged(state)
    ensures r == Handled ==>
              state.world == old(state.world).(components := old(state.world.components) +
                                                [Shared(old(state.nextId), Created(createRay.At(planeToi.value), e.shift))]) &&
              state.nextId == old(state.nextId) + 1 && state.Selection() == old(state.Selection())
  {
    if IsKeyPress(e, N) {
      state.NewComponent(Created(createRay.At(planeToi.value), e.shift));
      r := Handled;
    } else {
      r := Continue;
    }
  }

  /** `delete`: every Escape event is handled (and inhibited); only a press
      deselects. Every other event passes on. */
  method Delete(state: State, e: WindowEvent) returns (r: InputResult)
    requires state.Valid()
    modifies state
    ensures state.Valid()
    ensures r == Handled <==> e.KeyEvent? && e.key == Key.Escape
    ensures r == Continue || !IsKeyPress(e, Key.Escape) ==> unchanged(state)
    ensures IsKeyPress(e, Key.Escape) ==>
              state.world == old(state.world).(selection := None) && state.Selection().None? &&
              state.nextId == old(state.nextId) && state.iterationDepth == old(state.iterationDepth) &&
              state.wireframesEnabled == old(state.wireframesEnabled)
  {
    if e.KeyEvent? && e.key == Key.Escape {
      if e.action == Press {
        state.Deselect();
      }
      r := Handled;
    } else {
      r := Continue;
    }
  }
}
