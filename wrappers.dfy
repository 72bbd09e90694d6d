/** Optional values: a TypeScript `?:` property is either absent or present. */
module Wrappers {

  datatype Option<+T> = None | Some(value: T)
}
