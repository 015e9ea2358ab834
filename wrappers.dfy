/** Optional values: `None` stands for an absent JavaScript value; each use says which values that covers. */
module Wrappers {

  datatype Option<+T> = None | Some(value: T)
}
