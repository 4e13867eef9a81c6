/**
 Failure-carrying datatypes shared by the whole model.

 JavaScript code signals failure by throwing an `Error` whose `message` the
 route handlers later copy into a response, so a failure here is simply the
 message of the thrown error.
 */
module Outcomes {

  /** A value that may be absent (`undefined`/`null` in the source). */
  datatype Option<+T> = None | Some(value: T) {

    /** The value, or `default` when absent. */
    function GetOr(default: T): T {
      match this
      case Some(v) => v
      case None => default
    }
  }

  /** The outcome of a call that returns a value or throws an error. */
  datatype Result<+T> = Ok(value: T) | Thrown(message: string)

  /** The outcome of a call that returns nothing or throws an error. */
  datatype Step = Pass | Throw(message: string)
}
