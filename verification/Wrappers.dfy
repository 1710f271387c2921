/** Optional values, as the server's std::optional results. */
module Wrappers {
  datatype Option<+T> = None | Some(value: T)
}
