/** The small key handlers: Tab toggles the wireframes, the right arrow
    changes the iteration depth. */
module InputMisc {
  import opened Events
  import opened EditorState

  /** `toggle_wireframes`: a Tab press flips the wireframe flag. */
  method ToggleWireframes(state: State, e: WindowEvent) returns (r: InputResult)
    requires state.Valid()
    modifies state
    ensures state.Valid()
    ensures r == Handled <==> IsKeyPress(e, Tab)
    ensures r == Continue ==> unchanged(state)
    ensures r == Handled ==>
              state.wireframesEnabled == !old(state.wireframesEnabled) &&
              state.world == old(state.world) && state.detached == old(state.detached) &&
              state.iterationDepth == old(state.iterationDepth) && state.nextId == old(state.nextId)
  {
    if IsKeyPress(e, Tab) {
      state.ToggleWireframes();
      r := Handled;
    } else {
      r := Continue;
    }
  }

  /** `increase_depth`: a right-arrow press goes one level deeper. */
  method IncreaseDepth(state: State, e: WindowEvent) returns (r: InputResult)
    requires state.Valid()
    modifies state
    ensures state.Valid()
    ensures r == Handled <==> IsKeyPress(e, Right)
    ensures r == Continue ==> unchanged(state)
    ensures r == Handled ==>
              state.iterationDepth == old(state.iterationDepth) + 1 &&
              state.world == old(state.world) && state.detached == old(state.detached) &&
              state.wireframesEnabled == old(state.wireframesEnabled) && state.nextId == old(state.nextId)
  {
    if IsKeyPress(e, Right) {
      state.IncreaseDepth();
      r := Handled;
    } else {
      r := Continue;
    }
  }

  /** `decrease_depth`: also bound to the right arrow, a press goes one level
      shallower; at depth 0 the unsigned decrement panics in a debug build and
      wraps to `usize::MAX` in a release build, so the model requires depth > 0
      for a right-arrow press. */
  method DecreaseDepth(state: State, e: WindowEvent) returns (r: InputResult)
    requires state.Valid()
    requires IsKeyPress(e, Right) ==> state.iterationDepth > 0
    modifies state
    ensures state.Valid()
    ensures r == Handled <==> IsKeyPress(e, Right)
    ensures r == Continue ==> unchanged(state)
    ensures r == Handled ==>
              state.iterationDepth + 1 == old(state.iterationDepth) &&
              state.world == old(state.world) && state.detached == old(state.detached) &&
              state.wireframesEnabled == old(state.wireframesEnabled) && state.nextId == old(state.nextId)
  {
    if IsKeyPress(e, Right) {
      state.DecreaseDepth();
      r := Handled;
    } else {
      r := Continue;
    }
  }
}
