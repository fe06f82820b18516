/**
 * The `MouseButton` enumeration the mouse hooks report and inject. Its
 * declaration is not part of this model; the hooks name exactly these seven
 * members, and no hook reads a button's number.
 */
module Buttons {
  datatype MouseButton = Left | Right | Middle | X1 | X2 | WheelUp | WheelDown
}
