/** Optional values, standing in for Python's `None`. */
module Wrappers {

  /** `None` is the absence marker; `Some(v)` carries a value. */
  datatype Option<+T> = None | Some(value: T)
}
