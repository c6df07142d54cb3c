/** Optional values: a field a document may leave out, a parameter a route may lack. */
module Wrappers {

  datatype Option<+T> = None | Some(value: T)
}
