/** Optional values: `None` stands for a Python call that raised instead of returning. */
module Wrappers {

  datatype Option<+T> = None | Some(value: T)
}
