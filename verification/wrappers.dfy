/** Option and Result, the two failure-carrying datatypes the telemetry model uses:
    Option stands for a possibly missing table cell (a NaN in the data frame),
    Result for an operation that can raise an exception. */
module Wrappers {

  datatype Option<+T> = None | Some(value: T) {

    /** The value, or `default` when missing */
    function GetOr(default: T): T {
      match this
      case Some(v) => v
      case None => default
    }
  }

  datatype Result<+R, +E> = Success(value: R) | Failure(error: E)
}
