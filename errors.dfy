/** The exceptions the Python core raises, and the result shapes that carry them. */
module Errors {

  /** The exceptions the core can raise. */
  datatype Error =
    | NotFound          // ValueError from list.index / list.remove: no equal element
    | KeyMissing        // KeyError: a row lacks the indexed column
    | UnknownColumn(column: string)  // ValueError from verify_row: a key of the row is not a declared column
    | MissingColumn(column: string)  // ValueError from verify_row: a declared non-"id" column is absent
    | OutOfRange        // IndexError: a stored row position beyond the table's rows
    | NotImplemented    // NotImplementedError: pull on a sink without a pull strategy

  /** A value that may be absent (Python's `None`). */
  datatype Option<+T> = None | Some(value: T)

  /** An operation that returns nothing but may raise. */
  datatype Outcome = Pass | Fail(error: Error)

  /** An operation that returns a value or raises. */
  datatype Result<+R> = Success(value: R) | Failure(error: Error)
}
