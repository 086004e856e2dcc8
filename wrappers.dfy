/** Optional values, standing in for the source's nullable references and "not found" results. */
module Wrappers {

  datatype Option<+T> = None | Some(value: T)
}
