/** Optional values and error outcomes shared by the gateway model.
    `Option` plays the part of the source's `Maybe<T>` and of C#'s nullable references. */
module Wrappers {

  /** A value, or legitimately nothing (never an error). */
  datatype Option<+T> = None | Some(value: T)

  /** The outcome of a check that can fail with an error value. */
  datatype Outcome<+E> = Pass | Fail(error: E)

  /** A value or the error that prevented it. */
  datatype Result<+R, +E> = Success(value: R) | Failure(error: E)
}
