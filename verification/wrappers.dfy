/** Option and Result for the whole model. An `Option` is a field or header
    that may be `undefined` in the source; a `Result` is an outcome that the
    source either returns or throws, such as a schema check or an HTTP
    exchange. Both support `:-`, which stops at the first absent value or
    error. */
module Wrappers {

  datatype Option<+T> = None | Some(value: T) {

    /** The value if there is one, `default` otherwise (zod's
        `.default(...)`). */
    function GetOr(default: T): T {
      if Some? then value else default
    }

    predicate IsFailure() {
      None?
    }

    function PropagateFailure<U>(): Option<U>
      requires None?
    {
      None
    }

    function Extract(): T
      requires Some?
    {
      value
    }
  }

  datatype Result<+T, +E> = Ok(value: T) | Err(error: E) {

    predicate IsFailure() {
      Err?
    }

    function PropagateFailure<U>(): Result<U, E>
      requires Err?
    {
      Err(error)
    }

    function Extract(): T
      requires Ok?
    {
      value
    }
  }
}
