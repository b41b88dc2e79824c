/** Small value types shared by every module of the model. */
module Wrappers {

  /** A Java reference that may be null: `None` stands for `null`. */
  datatype Option<T> = None | Some(value: T)

  /** The outcome of an operation that may throw: `Err` carries the exception kind. */
  datatype Result<T, E> = Ok(value: T) | Err(error: E)

  /** `IllegalArgumentException("This map does not support null values, nor keys.")`. */
  datatype MapError = NullNotSupported

  /** One atomic step of a store: what the operation returned and the store afterwards. */
  datatype Step<R, S> = Step(result: R, state: S)
}
