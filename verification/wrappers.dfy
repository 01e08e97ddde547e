/** Values that may be absent: a flag left off the command line, or Go's nil `error`. */
module Wrappers {

  datatype Option<T> = None | Some(value: T)

  /** The value held by `o`, or `fallback` when it holds none. */
  function ValueOr<T>(o: Option<T>, fallback: T): T {
    if o.Some? then o.value else fallback
  }
}
