/** Optional values. */
module Outcomes {
  datatype Option<+T> = None | Some(value: T)
}
