/** Option and Result, the two shapes the Rust code returns: `Option<T>` for
    attribute lookups and `Result<T, E>` for every operation that the Rust code
    aborts with `expect`/`panic!`. */
module Wrappers {

  datatype Option<+T> = None | Some(value: T)

  /** The outcome of a step that either goes on or aborts with an error. */
  datatype Outcome<+E> = Pass | Fail(error: E)

  datatype Result<+T, +E> = Success(value: T) | Failure(error: E) {
    predicate IsFailure() { Failure? }

    function PropagateFailure<U>(): Result<U, E>
      requires Failure?
    {
      Failure(error)
    }

    function Extract(): T
      requires Success?
    {
      value
    }
  }
}
