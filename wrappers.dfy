/** Optional values: `None` stands for a missing value (pandas' NaN, Python's None). */
module Wrappers {

  datatype Option<+T> = None | Some(value: T)
}
