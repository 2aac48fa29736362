/** The rotation handler: I/J/K/L/U/O presses turn the selection, a plain
    Backspace press straightens it. */
module InputRotation {
  import opened Options
  import opened Linear
  import opened Events
  import opened Controls
  import opened EditorState

  /** The event `rotation` turns the selection for: a rotation key press. */
  predicate IsRotationPress(e: WindowEvent) {
    e.KeyEvent? && e.action == Press && e.key in RotationKeys
  }

  /** A Backspace press without Shift. */
  predicate IsResetPress(e: WindowEvent) {
    e == KeyEvent(Key.Backspace, Press, false)
  }

  /** `rotation`: a rotation key press turns the selection, if any, by the
      key's axis-angle rotation after its current orientation (a finer angle
      with Shift); a plain Backspace press resets the selection's orientation.
      Both are handled with or without a selection, also during a drag; every
      other event passes on. */
  method Rotation(state: State, e: WindowEvent) returns (r: InputResult)
    requires state.Valid()
    modifies state
    ensures state.Valid()
    ensures r == Handled <==> IsRotationPress(e) || IsResetPress(e)
    ensures r == Continue || old(state.world.selection).None? ==> unchanged(state)
    ensures r == Handled && old(state.world.selection).Some? ==> state.OnlySelectionChanged()
    ensures IsRotationPress(e) && old(state.world.selection).Some? ==>
              state.Selection() == Some(Rotated(old(state.Selection()).value, HandlerRotation(e.key, RotateFactor(e.shift))))
    ensures IsResetPress(e) && old(state.world.selection).Some? ==>
              state.Selection() == Some(ResetOrientation(old(state.Selection()).value))
  {
    if IsRotationPress(e) {
      if state.world.selection.Some? {
        var c := state.Selection().value;
        state.SetSelection(Rotated(c, HandlerRotation(e.key, RotateFactor(e.shift))));
      }
      r := Handled;
    } else if IsResetPress(e) {
      if state.world.selection.Some? {
        var c := state.Selection().value;
        state.SetSelection(ResetOrientation(c));
      }
      r := Handled;
    } else {
      r := Continue;
    }
  }
}
