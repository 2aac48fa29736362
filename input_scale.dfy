/** The scale handler: scrolling with B, X, Y or Z held resizes the selection. */
module InputScale {
  import opened Options
  import opened Events
  import opened Controls
  import opened EditorState

  /** The scale handler (named `rotation` in its file). Without a selection
      every event passes on. A scroll while a scale key is held changes the
      selection's scale by `adjustment * offset`: B on all axes, else X, Y or
      Z on its own, each clamped at zero; `fine` picks the finer adjustment.
      `held` is the set of keys the window reports as pressed. */
  method Scale(state: State, e: WindowEvent, held: set<Key>, fine: bool) returns (r: InputResult)
    requires state.Valid()
    modifies state
    ensures state.Valid()
    ensures r == Handled <==> old(state.world.selection).Some? && e.ScrollEvent? && held * ScaleKeys != {}
    ensures r == Continue ==> unchanged(state)
    ensures r == Handled ==>
              state.OnlySelectionChanged() &&
              state.Selection() == Some(Rescaled(old(state.Selection()).value, ScaleKeyHeld(held).value,
                                                 ScaleDelta(fine, e.offset)))
    ensures r == Handled && (old(state.Selection()).value.scale.NonNegative() || B in held) ==>
              state.Selection().value.scale.NonNegative()
  {
    if state.world.selection.None? {
      return Continue;
    }
    var key := ScaleKeyHeld(held);
    if e.ScrollEvent? && key.Some? {
      var c := state.Selection().value;
      RescaledNonNegative(c, key.value, ScaleDelta(fine, e.offset));
      state.SetSelection(Rescaled(c, key.value, ScaleDelta(fine, e.offset)));
      r := Handled;
    } else {
      r := Continue;
    }
  }
}
