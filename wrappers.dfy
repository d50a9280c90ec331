/** Option and Result, used wherever the source returns `None` or raises. */
module Wrappers {

  datatype Option<+T> = None | Some(value: T)

  datatype Result<+T, +E> = Ok(value: T) | Err(error: E)

  /** The carried value, or `current` when there is none. */
  function Or<T>(o: Option<T>, current: T): T {
    if o.Some? then o.value else current
  }
}
