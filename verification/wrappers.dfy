/** Optional values, used for results the source reports as `undefined`, `null` or NaN. */
module Wrappers {

  datatype Option<+T> = None | Some(value: T)
}
