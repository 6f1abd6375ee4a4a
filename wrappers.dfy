/** Optional values: Python's `None`-or-value. */
module Wrappers {

  datatype Option<+T> = None | Some(value: T)
}
