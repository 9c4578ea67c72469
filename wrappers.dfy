/** Option, Result and Error, used for JavaScript's `undefined` and for thrown exceptions. */
module Wrappers {

  /** `None` stands for JavaScript's `undefined` (or `null`). */
  datatype Option<+T> = None | Some(value: T)

  /** `Failure` stands for an exception thrown (or a promise rejected) with the given error. */
  datatype Result<+R, +E> = Success(value: R) | Failure(error: E)

  /** A JavaScript exception: a TypeError raised by the language itself, or an error thrown by a
      library or a remote service (network, scraper, completion provider). */
  datatype Error = TypeError(reason: string) | Thrown(message: string)
}
