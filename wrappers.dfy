/** JavaScript's `null` / `undefined` and Python's `None` for a single value. */
module Wrappers {

  datatype Option<+T> = None | Some(value: T)
}
