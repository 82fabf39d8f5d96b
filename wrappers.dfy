/** JavaScript's "may be null or undefined" values, made explicit. */
module Wrappers {

  datatype Option<+T> = None | Some(value: T)
}
