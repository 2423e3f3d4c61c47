/** Optional values, standing for TypeScript's `T | undefined` results. */
module Wrappers {
  datatype Option<+T> = None | Some(value: T)
}
