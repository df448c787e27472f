/** Optional values, used wherever the source returns a zero value beside a flag. */
module Wrappers {
  datatype Option<+T> = None | Some(value: T)
}
