/** The window events the editor reacts to (glfw's `WindowEvent`, reduced to the
    parts the handlers read) and the handlers' answer (`InputResult`). */
module Events {

  datatype Key =
    | W | A | S | D | R | F        // translation
    | I | J | K | L | U | O        // rotation
    | B | X | Y | Z | C            // held while scrolling: scale / colour
    | N | Tab | Escape | Backspace
    | Left | Right                 // arrow keys
    | LeftShift | RightShift
    | OtherKey

  datatype Action = Press | Release | Repeat

  datatype MouseButton = MouseButtonLeft | MouseButtonRight | MouseButtonMiddle

  /** `shift` is whether the event's modifiers contain Shift. */
  datatype WindowEvent =
    | KeyEvent(key: Key, action: Action, shift: bool)
    | MouseEvent(button: MouseButton, action: Action)
    | ScrollEvent(offset: real)
    | OtherEvent

  /** Whether a handler consumed the event. */
  datatype InputResult = Continue | Handled

  predicate IsKeyPress(e: WindowEvent, k: Key) {
    e.KeyEvent? && e.key == k && e.action == Press
  }

  const TranslationKeys: set<Key> := {W, A, S, D, R, F}
  const RotationKeys: set<Key> := {I, J, K, L, U, O}
  const ScaleKeys: set<Key> := {X, Y, Z, B}
}
