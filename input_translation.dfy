/** The translation handler: W/A/S/D/R/F presses move the selection. */
module InputTranslation {
  import opened Options
  import opened Events
  import opened Controls
  import opened EditorState

  /** The event `translation` takes: a press of a translation key. */
  predicate IsTranslationPress(e: WindowEvent) {
    e.KeyEvent? && e.action == Press && e.key in TranslationKeys
  }

  /** `translation`: while no drag is in progress, a translation key press
      moves the selection, if any, one step along the key's axis (a finer step
      with Shift), and is handled even without a selection. During a drag, and
      for every other event, it passes on. */
  method Translation(state: State, e: WindowEvent) returns (r: InputResult)
    requires state.Valid()
    modifies state
    ensures state.Valid()
    ensures r == Handled <==> IsTranslationPress(e) && !old(state.IsDragging())
    ensures r == Continue || old(state.world.selection).None? ==> unchanged(state)
    ensures r == Handled && old(state.world.selection).Some? ==>
              state.OnlySelectionChanged() &&
              state.Selection() == Some(Translated(old(state.Selection()).value, e.key, TranslateFactor(e.shift)))
  {
    if IsTranslationPress(e) && !state.IsDragging() {
      if state.world.selection.Some? {
        var c := state.Selection().value;
        state.SetSelection(Translated(c, e.key, TranslateFactor(e.shift)));
      }
      r := Handled;
    } else {
      r := Continue;
    }
  }
}
