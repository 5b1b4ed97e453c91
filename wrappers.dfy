/** Optional values: a register found by a lookup, or Python's `None`. */
module Wrappers {

  datatype Option<+T> = None | Some(value: T)
}
