/** Optional values, standing for PHP's "null or an object". */
module Wrappers {

  datatype Option<+T> = None | Some(value: T)
}
