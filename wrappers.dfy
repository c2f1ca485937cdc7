/** Optional values: `None` stands for JavaScript's `undefined` (a missing argument,
    a regular-expression group that did not participate, a property that is absent). */
module Wrappers {
  datatype Option<+T> = None | Some(value: T)
}
