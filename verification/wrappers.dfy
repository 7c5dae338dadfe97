/** Failure-carrying datatypes shared by the modules of this model. */
module Wrappers {

  /** An optional value: `None` stands for a null pointer or an empty `unique_ptr`. */
  datatype Option<+T> = None | Some(value: T)

  /** Either a value or the error that the C++ code would have thrown instead. */
  datatype Result<+T, +E> = Success(value: T) | Failure(error: E) {
    predicate IsFailure() {
      Failure?
    }

    function PropagateFailure<U>(): Result<U, E>
      requires Failure?
    {
      Failure(error)
    }

    function Extract(): T
      requires Success?
    {
      value
    }
  }
}
