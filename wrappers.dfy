/** Optional values: the model's stand-in for a Python `None` returned by `dict.get`. */
module Wrappers {

  datatype Option<+T> = None | Some(value: T)
}
