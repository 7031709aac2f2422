/** Optional values, used wherever the program returns `None` or a missing row. */
module Wrappers {

  datatype Option<+T> = None | Some(value: T)
}
