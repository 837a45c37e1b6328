/** Optional values, used where the source can produce nothing (input that
    runs out before a key is complete, a subtraction that would underflow). */
module Wrappers {

  datatype Option<+T> = None | Some(value: T)
}
