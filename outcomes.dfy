// Outcomes of operations that may raise: the exceptions the sources raise
// (or let escape) become explicit error values.
module Outcomes {

  datatype Option<+T> = None | Some(value: T)

  /** The Python exception an operation ends with. */
  datatype PyError =
    | TypeError          // e.g. `reduce` on an empty list, `sum` on an int
    | IndexError         // `[0]` on an empty list
    | KeyError
    | ValueError
    | ZeroDivisionError
    | AttributeError     // a method the graph class does not define
    | RuntimeError
    | LengthMismatch     // the `BaseException` of the phase-list length checks
    | BadFormat          // the parser's "Bad rate format" and similar
    | InvalidValue       // the `Exception` of the validating setters

  datatype Result<+T> = Ok(value: T) | Err(error: PyError)
}
