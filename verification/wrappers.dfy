/**
 Failure-carrying datatypes shared by the whole model.

 The script raises Python exceptions and lets them end the run; the model
 returns them as values instead. Only the three exception classes the core
 can raise are named.
 */
module Wrappers {

  /** The Python exception class a failing step raises. */
  datatype PyError =
    | IndexError   // `split()[0]` on a blank string, `cells[-1]` on an empty list, a row index past the end
    | ValueError   // `float()` given text that is not a number, `min()` of an empty list
    | TypeError    // `float()` given a cell of a type it cannot convert

  datatype Result<+T> = Success(value: T) | Failure(error: PyError) {

    predicate IsFailure() {
      Failure?
    }

    function PropagateFailure<U>(): Result<U>
      requires Failure?
    {
      Failure(error)
    }

    function Extract(): T
      requires Success?
    {
      value
    }
  }
}
