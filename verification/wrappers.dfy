/** Small optional-value and call-outcome datatypes shared by every model in this project. */
module Wrappers {

  /** A value that may be absent: JavaScript's `undefined`/`null` next to a present value. */
  datatype Option<+T> = None | Some(value: T) {

    /** The value, or `default` when absent (the `x ?? default` of the source). */
    function GetOr(default: T): T {
      match this
      case Some(v) => v
      case None => default
    }
  }

  /**
   * The outcome of an awaited call into the hosted backend or another collaborator:
   * either it resolves with a value or it rejects (throws) with a message.
   */
  datatype Reply<+T> = Ok(value: T) | Failed(message: string)
}
