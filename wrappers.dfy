/** Optional values: `None` stands for JavaScript's NaN or `undefined`, as each use says. */
module Wrappers {

  datatype Option<+T> = None | Some(value: T)
}
