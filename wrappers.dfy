/** Plain result wrappers, matched on explicitly: a Java `null`/`Optional` becomes an
    Option, a thrown exception becomes the Failure/Fail case carrying an error value. */
module Wrappers {

  datatype Option<T> = None | Some(value: T)

  /** The outcome of an operation that returns a value or throws. */
  datatype Result<T, E> = Success(value: T) | Failure(error: E)

  /** The outcome of a `void` operation that may throw. */
  datatype Outcome<E> = Pass | Fail(error: E)
}
