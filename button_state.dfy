/**
 * Button-state records as ClientInputSystem.tsx reads and writes them.
 * ButtonState.ts, which defines them and `createInitialButtonState`, is not
 * part of this model: the record's fields are the ones the input system
 * touches, and the initial state is an assumption stated below.
 */
module ButtonState {
  import opened Wrappers

  /** Edge flags `down`/`up` and level state `pressed`/`touched`/`value`. */
  datatype ButtonState = ButtonState(down: bool, pressed: bool, touched: bool, up: bool, value: real)

  /** Keys of a button-state map: gamepad button indices, and named buttons
      (a KeyboardEvent `code`, or a MouseButton name). */
  datatype ButtonKey = Index(i: nat) | Named(name: string)

  type ButtonStateMap = map<ButtonKey, ButtonState>

  /** One entry of a Gamepad snapshot's `buttons`. */
  datatype GamepadButton = GamepadButton(pressed: bool, touched: bool, value: real)

  const PrimaryClick: ButtonKey := Named("PrimaryClick")
  const AuxiliaryClick: ButtonKey := Named("AuxiliaryClick")
  const SecondaryClick: ButtonKey := Named("SecondaryClick")

  /** createInitialButtonState, assumed: taken from the snapshot when one is
      given, otherwise a fresh press (down, pressed and touched, value 1). */
  function InitialButtonState(initial: Option<GamepadButton>): (s: ButtonState)
    ensures !s.up
    ensures initial.None? ==> s.down && s.pressed && s.touched
    ensures initial.Some? ==> s.pressed == initial.value.pressed && s.touched == initial.value.touched
                              && s.value == initial.value.value && s.down == initial.value.pressed
  {
    match initial
    case None => ButtonState(true, true, true, false, 1.0)
    case Some(b) => ButtonState(b.pressed, b.pressed, b.touched, false, b.value)
  }

  /** A key's state, absent when the map does not track it. */
  function Get(m: ButtonStateMap, k: ButtonKey): Option<ButtonState>
  {
    if k in m then Some(m[k]) else None
  }
}
