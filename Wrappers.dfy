/** Optional values: TypeScript's `T | null` and `T | undefined`, and the NaN of a failed parse. */
module Wrappers {

  datatype Option<+T> = None | Some(value: T)
}
