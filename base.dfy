/** Failure-compatible wrappers and the primitive types shared by both services.
    Clock readings (DateTime.UtcNow) and fresh identifiers (Guid.NewGuid) are
    never computed by the model: callers pass them in. */
module Base {

  datatype Option<+T> = None | Some(value: T)

  datatype Result<+T, +E> = Success(value: T) | Failure(error: E) {
    predicate IsFailure() { Failure? }

    function PropagateFailure<U>(): Result<U, E>
      requires Failure?
    {
      Failure(error)
    }

    function Extract(): T
      requires Success?
    {
      value
    }
  }

  /** The outcome of a void method that may throw. */
  datatype Outcome<+E> = Pass | Fail(error: E) {
    predicate IsFailure() { Fail? }

    function PropagateFailure(): Outcome<E>
      requires Fail?
    {
      this
    }
  }

  /** A DateTime, as a count of ticks. */
  type Time = int

  /** A System.Guid; `EmptyGuid` stands for Guid.Empty. */
  type Guid = nat

  const EmptyGuid: Guid := 0
}
