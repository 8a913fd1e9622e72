/** Failure-compatible result types used across the listing engine. */
module Wrappers {

  datatype Option<+T> = None | Some(value: T)

  /** The outcome of a step that can end the whole run: `Fatal` stands for
      the source's `err(1, ...)`, carrying the text of its message. */
  datatype Result<+T> = Ok(value: T) | Fatal(message: seq<char>) {

    predicate IsFailure() {
      Fatal?
    }

    function PropagateFailure<U>(): Result<U>
      requires Fatal?
    {
      Fatal(message)
    }

    function Extract(): T
      requires Ok?
    {
      value
    }
  }
}
