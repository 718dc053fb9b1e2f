/** Failure-carrying results shared by every module of the model. Go reports
    errors as `error` values whose text is all a caller can inspect, so the
    error side is a plain string. */
module Wrappers {

  datatype Option<+T> = None | Some(value: T)

  /** A value or the text of a Go `error`. */
  datatype Result<+T> = Success(value: T) | Failure(error: string)

  /** An `error` return with no value beside it: `nil` is `Pass`. */
  datatype Outcome = Pass | Fail(error: string)
}
