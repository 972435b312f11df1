/** Optional values, for the source's `std::optional` and its invalid-id sentinels. */
module Wrappers {
  datatype Option<+T> = None | Some(value: T)
}
