/** Optional values: JavaScript's `null` / `undefined` on the one hand, a present value on the other. */
module Wrappers {

  datatype Option<+T> = None | Some(value: T)
}
