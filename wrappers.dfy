/** Optional values: `None` stands for JavaScript's `undefined`; a `null` field
    value is not modelled. */
module Wrappers {

  datatype Option<+T> = None | Some(value: T)
}
