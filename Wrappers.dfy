/** Small failure-carrying datatypes shared by the components. */
module Wrappers {

  /** A value that may be absent (a missing storage record, a guard that did not pass). */
  datatype Option<+T> = None | Some(value: T)

  /**
   * The outcome of an awaited backend call: the resolved value, or a rejected
   * promise (a thrown error) whose details the components only log.
   */
  datatype Outcome<+T> = Success(value: T) | Failure
}
