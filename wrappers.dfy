/** Failure-compatible result types shared by every module of the model.
    A C++ `throw` of `std::invalid_argument` or `std::runtime_error` becomes a
    `Failure` (or `Fail`) carrying the exception kind and its message. */
module Wrappers {

  /** The exception classes the core throws, with their messages. */
  datatype Error =
    | InvalidArgument(what: string)
    | RuntimeError(what: string)
    | BadFunctionCall

  /** An optional value: a `std::shared_ptr` that may be null, a `std::function`
      that may be empty, a `std::weak_ptr` that may never have been set. */
  datatype Option<+T> = None | Some(value: T)

  /** The outcome of an operation that returns a value or throws. */
  datatype Result<+R> = Success(value: R) | Failure(error: Error) {
    predicate IsFailure() { Failure? }
    function PropagateFailure<U>(): Result<U>
      requires Failure?
    {
      Failure(error)
    }
    function Extract(): R
      requires Success?
    {
      value
    }
  }

  /** The outcome of a `void` operation that may throw. */
  datatype Outcome = Pass | Fail(error: Error)
}
