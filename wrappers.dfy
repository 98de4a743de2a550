/** Optional values and success-or-failure results, for the JavaScript `null`
    and thrown errors of the scheduler. */
module Wrappers {

  /** `None` stands for JavaScript's `null`/`undefined`. */
  datatype Option<+T> = None | Some(value: T)

  /** `Failure` stands for an error the source throws. */
  datatype Result<+R, +E> = Success(value: R) | Failure(error: E)
}
