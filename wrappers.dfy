/**
 * Optional values, results that carry either a value or the message of the exception raised instead, and the
 * messages of the .NET runtime exceptions the model raises.
 */
module Wrappers {

  datatype Option<+T> = None | Some(value: T)

  datatype Result<+T, +E> = Success(value: T) | Failure(error: E) {

    predicate IsFailure() {
      Failure?
    }

    function PropagateFailure<U>(): Result<U, E>
      requires Failure?
    {
      Failure(error)
    }

    function Extract(): T
      requires Success?
    {
      value
    }
  }

  /** The message of the exception `List<T>[0]` raises on an empty list. */
  const INDEX_OUT_OF_RANGE: string :=
    "Index was out of range. Must be non-negative and less than the size of the collection. (Parameter 'index')"

  /** The message of the exception raised when a member of a null reference is used. */
  const NULL_REFERENCE: string := "Object reference not set to an instance of an object."

  /** The message of the exception `First(predicate)` raises when no element matches. */
  const NO_MATCHING_ELEMENT: string := "Sequence contains no matching element"
}
