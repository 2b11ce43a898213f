/** Small value wrappers shared by every module of the model. */
module Wrappers {

  /** A value that may be absent (`undefined` in the JavaScript source). */
  datatype Option<+T> = None | Some(value: T)

  /** How an async JavaScript function settles: it resolves with a value or
      rejects with an `Error` whose `message` is given. */
  datatype Outcome<+T> = Returned(value: T) | Raised(message: string)
}
