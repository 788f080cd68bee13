/** Values shared by every part of the state-machine model. */
module Values {

  /** The conventional Some/None wrapper. */
  datatype Option<+T> = None | Some(value: T)

  /**
   * A JavaScript value in a state position (a handler's `from` or `to`,
   * an entry of the history): a state name, `null` or `undefined`.
   * `null` and `undefined` are kept apart because the engine compares
   * with `===` and stores `null` itself for the fields that core
   * handlers do not use.
   */
  datatype Ref = Undefined | Null | Name(id: string)

  /** The identity of a callback function (callbacks are compared by reference). */
  type CallbackId = nat
}
