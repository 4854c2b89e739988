/** Optional values, used where the modelled code can fail to produce a result. */
module Wrappers {

  datatype Option<+T> = None | Some(value: T)
}
