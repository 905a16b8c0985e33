/** Optional values and success/failure results shared by every module. */
module Wrappers {

  /** A value that may be absent: Python's `None` versus a present value. */
  datatype Option<+T> = None | Some(value: T)

  /** The outcome of an operation that either returns a value or raises a structured error. */
  datatype Result<+T, +E> = Ok(value: T) | Err(error: E)

  /** Python's f-string rendering of an optional string: `None` prints as "None". */
  function Str(o: Option<string>): string
  {
    if o.Some? then o.value else "None"
  }

  /** Python truthiness of an optional string: neither `None` nor empty. */
  predicate Truthy(o: Option<string>)
  {
    o.Some? && o.value != ""
  }
}
