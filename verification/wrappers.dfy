/** Optional values, used wherever the application tests a Python value
    for presence (`None`) before using it. */
module Wrappers {

  datatype Option<+T> = None | Some(value: T)
}
