/** Option and Result, standing for the framework's nullable values and thrown exceptions. */
module Wrappers {

  /** The exceptions the modelled C# code throws, by type. */
  datatype Exception =
    | ArgumentException
    | ArgumentNullException
    | ArgumentOutOfRangeException
    | InvalidOperationException
    | NotSupportedException
    | DivideByZeroException
    | NullReferenceException
    | IndexOutOfRangeException
    | EndOfStreamException
    | InvalidCastException
    | OverflowException
    | PipelineException
    | PlainException      // a plain System.Exception

  datatype Option<+T> = None | Some(value: T)

  /** `Failure` carries the exception the C# code would throw. */
  datatype Result<+T, +E> = Success(value: T) | Failure(error: E) {
    predicate IsFailure() { Failure? }

    function PropagateFailure<U>(): Result<U, E>
      requires Failure?
    {
      Failure(error)
    }

    function Extract(): T
      requires Success?
    {
      value
    }
  }

  /** Result of an operation that returns nothing (a C# `void` method that may throw). */
  datatype Outcome<+E> = Pass | Fail(error: E) {
    predicate IsFailure() { Fail? }

    function PropagateFailure(): Outcome<E>
      requires Fail?
    {
      this
    }
  }
}
