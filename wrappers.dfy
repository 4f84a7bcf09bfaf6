/** Optional values, used where a Python operation may raise instead of
    returning: None stands for the exception. */
module Wrappers {

  datatype Option<+T> = None | Some(value: T)
}
