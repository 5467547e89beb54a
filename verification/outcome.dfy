/** The two shapes a Go result takes in this model. `Option` stands for a
    value that may be absent: a nil map or pointer, or a failed type
    assertion. `Result` stands for a value or the reason there is none. Only
    `Result` is used with `:-`, so only it carries the three members that
    operator needs. */
module Outcome {

  datatype Option<T> = None | Some(value: T)

  datatype Result<T, E> = Success(value: T) | Failure(error: E) {

    /** `:-` stops at a failure ... */
    predicate IsFailure() {
      Failure?
    }

    /** ... hands the same error on, retyped for the caller ... */
    function PropagateFailure<U>(): Result<U, E>
      requires Failure?
    {
      Failure(error)
    }

    /** ... and otherwise continues with the value. */
    function Extract(): T
      requires Success?
    {
      value
    }
  }
}
