/** The outcome of a lexing or parsing step. `sk_emit_error` prints a message and
    ends the process, so it becomes `SyntaxError`; a read outside the token array,
    which C leaves undefined, becomes `OutOfBounds`. */
module Outcomes {

  datatype Option<+T> = None | Some(value: T)

  datatype Result<+T> = Ok(value: T) | SyntaxError(message: string) | OutOfBounds {

    predicate IsFailure() {
      !Ok?
    }

    function PropagateFailure<U>(): Result<U>
      requires IsFailure()
    {
      match this
      case SyntaxError(m) => SyntaxError(m)
      case OutOfBounds => OutOfBounds
    }

    function Extract(): T
      requires Ok?
    {
      value
    }
  }
}
