/** Outcome types shared by the model: optional values, the Python exceptions the
    modelled code lets escape, and the three ways a fetch coroutine can end. */
module Wrappers {

  /** A value that may be absent (Python's `None`). */
  datatype Option<+T> = None | Some(value: T)

  /** The exceptions the modelled code can raise and does not catch. */
  datatype PyError =
    | ValueError          // strptime or an enum constructor rejected a string
    | TypeError           // a `None` was iterated or subscripted
    | IndexError          // `[0]` of an empty list
    | UnboundLocalError   // a retry loop ran out of attempts before any 200

  /** A computation that either produces a value or raises. */
  datatype Result<+T> = Ok(value: T) | Err(error: PyError)

  /** A fetch coroutine either returns a value, returns `None`, or raises. */
  datatype Fetch<+T> = Fetched(value: T) | Unavailable | Raised(error: PyError)
}
