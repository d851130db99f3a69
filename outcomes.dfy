/** Optional values, results and the Java exceptions the core can raise. */
module Outcomes {

  /** A value that may be absent: Java's `null` reference. */
  datatype Option<+T> = None | Some(value: T)

  /** The unchecked exceptions thrown by the modelled code. */
  datatype Error =
    | IndexOutOfBounds   // java.lang.IndexOutOfBoundsException
    | NoSuchElement      // java.util.NoSuchElementException
    | InputMismatch      // java.util.InputMismatchException
    | Arithmetic         // java.lang.ArithmeticException, an integer division by zero

  /** The outcome of a Java method that returns a value or throws. */
  datatype Result<+T> = Ok(value: T) | Err(error: Error) {
    predicate IsFailure() { Err? }

    function PropagateFailure<U>(): Result<U>
      requires Err?
    {
      Err(error)
    }

    function Extract(): T
      requires Ok?
    {
      value
    }
  }

  /** The outcome of a Java `void` method that returns or throws. */
  datatype Outcome = Pass | Fail(error: Error)
}
