/** Optional values: `None` stands for JavaScript's `NaN`, `undefined` or "no call made". */
module Wrappers {

  datatype Option<+T> = None | Some(value: T)
}
