/** Optional values: JavaScript's `undefined`/absent field on one side, a present value on the other. */
module Wrappers {
  datatype Option<+T> = None | Some(value: T)
}
