/** Optional values: the model's stand-in for Go's nil-able error and for "no row". */
module Wrappers {

  datatype Option<+T> = None | Some(value: T)

}
