/** Optional values: the model of a TypeScript `T | null` state slot. */
module Wrappers {

  /** `None` stands for `null`; `Some(v)` for a present value. */
  datatype Option<+T> = None | Some(value: T)
}
