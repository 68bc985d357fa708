/** Small value wrappers shared by every module: JavaScript's "maybe undefined"
    and the two ways a promise settles. */
module Wrappers {

  /** A value that may be absent (`undefined` or `null` in the source). */
  datatype Option<+T> = None | Some(value: T) {

    /** The value, or `default` when absent. */
    function GetOr(default: T): T {
      match this
      case Some(v) => v
      case None => default
    }
  }

  /** How a promise settles: it resolves with a value or rejects with a reason. */
  datatype Settled<+T, +E> = Resolved(value: T) | Rejected(reason: E)
}
