/** Absent-or-present values and fallible results, shared by every module. */
module Wrappers {

  /** A value that may be missing: JavaScript's `undefined` (or `null`) versus a present value. */
  datatype Option<T> = None | Some(value: T)

  /** The outcome of an operation that throws in the source: `Failure` carries the thrown message. */
  datatype Result<T> = Success(value: T) | Failure(error: string)
}
