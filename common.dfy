/**
 * Shared vocabulary of the model: optional values, the Python exceptions the
 * modelled code can raise, and failure-compatible results carrying them.
 */
module Common {

  /** A value that may be absent (Python `None`). */
  datatype Option<+T> = None | Some(value: T)

  /** The exception classes raised by the modelled Python code. */
  datatype Error =
    | TypeError
    | ValueError
    | KeyError
    | IndexError
    | ZeroDivisionError
    | OverflowError
    | AttributeError
    | NotImplementedError

  /** The outcome of a computation that returns a value or raises. */
  datatype Result<+T> = Success(value: T) | Failure(error: Error) {
    predicate IsFailure() {
      Failure?
    }

    function PropagateFailure<U>(): Result<U>
      requires Failure?
    {
      Failure(error)
    }

    function Extract(): T
      requires Success?
    {
      value
    }
  }

  /** The outcome of a statement that either completes or raises. */
  datatype Outcome = Pass | Fail(error: Error) {
    predicate IsFailure() {
      Fail?
    }

    function PropagateFailure<U>(): Result<U>
      requires Fail?
    {
      Failure(error)
    }
  }

  /** A computation run for its effect only: its error, or none. */
  function OutcomeOf<T>(r: Result<T>): (o: Outcome)
    ensures o == Pass <==> r.Success?
    ensures r.Failure? ==> o.error == r.error
  {
    if r.Success? then Pass else Fail(r.error)
  }

  /** Python's index into a sequence of length n: negative indices count from the end. */
  predicate ValidPyIndex(i: int, n: int) {
    -n <= i < n
  }

  function PyIndex(i: int, n: int): (k: int)
    requires ValidPyIndex(i, n)
    ensures 0 <= k < n
    ensures i >= 0 ==> k == i
    ensures i < 0 ==> k == n + i
  {
    if i < 0 then n + i else i
  }
}
