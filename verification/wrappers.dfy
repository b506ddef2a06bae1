/** Optional values, used for absent JSON fields and header values, and for
    the outcome of the token-signing callback. */
module Wrappers {

  datatype Option<+T> = None | Some(value: T)
}
