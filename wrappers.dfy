/** Optional values: `None` stands for a Python `None` result or a raised exception. */
module Wrappers {
  datatype Option<+T> = None | Some(value: T)
}
