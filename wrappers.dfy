/** A value that may be absent: JavaScript's `null`/`undefined` results, made explicit. */
module Wrappers {
  datatype Option<+T> = None | Some(value: T)
}
