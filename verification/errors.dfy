/** The error taxonomy of strmath and the failure-compatible outcome type that
    carries it.

    `InvalidExpression` in the library is the common base class; every kind below is
    one of its derivatives, except the last three, which stand for exceptions the
    Python runtime raises on the library's behalf:
    - `DivisionByZero` is Python's `ZeroDivisionError`, which the operators let through;
    - `HostCrash` is any other exception of the runtime (`TypeError`, `AttributeError`,
      `IndexError`, `ValueError`, `RecursionError`) that escapes the library unwrapped;
    - `FloatArithmetic` marks an operation whose outcome depends on the value of a
      float operand (a float divisor that may be 0.0, a power with a float in it),
      which this model does not represent. */
module Errors {

  datatype Error =
    | InvalidToken(token: string)
    | UnexpectedToken(token: string)
    | BracesMismatch
    | InvalidOperator(op: string)
    | IncompleteFunction(token: string)
    | InvalidFunction(name: string)
    | DivisionByZero
    | HostCrash
    | FloatArithmetic

  /** The result of an operation that either returns a value or raises. */
  datatype Result<+T> = Ok(value: T) | Err(error: Error) {

    predicate IsFailure() {
      Err?
    }

    function PropagateFailure<U>(): Result<U>
      requires Err?
    {
      Err(error)
    }

    function Extract(): T
      requires Ok?
    {
      value
    }
  }

  /** Python's `None` next to a value, used for the tokenizer's optional token kind. */
  datatype Option<+T> = None | Some(value: T)
}
