/** Option and Result: a value that may be absent, and the outcome of a call that may throw. */
module Wrappers {

  /** A value that may be absent (`undefined` or `null` in the source). */
  datatype Option<+T> = None | Some(value: T)

  /** The outcome of an operation that either returns a value or throws an Error with a message. */
  datatype Result<+T> = Ok(value: T) | Err(error: string)

  /** The message of a failed outcome, or None when it succeeded. */
  function ErrorOf<T>(r: Result<T>): (e: Option<string>)
    ensures e.Some? <==> r.Err?
    ensures e.Some? ==> e.value == r.error
  {
    match r
    case Ok(_) => None
    case Err(m) => Some(m)
  }
}
