/** Failure-compatible wrappers shared by the slot-machine modules. */
module Wrappers {

  /** A value that may be absent. The widget's JavaScript uses `undefined`
      (an out-of-range array read) and `-1` (a failed `indexOf`) for this. */
  datatype Option<+T> = None | Some(value: T)

  /** Either a value or the reason there is none. */
  datatype Result<+R, +E> = Success(value: R) | Failure(error: E)
}
