/** An optional value, for the source's `null`/`undefined` and for results that may be absent. */
module Wrappers {
  datatype Option<+T> = None | Some(value: T)
}
