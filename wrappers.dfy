/** Optional values, for the TypeScript `?:` fields and for parse results. */
module Wrappers {
  datatype Option<+T> = None | Some(value: T)
}
