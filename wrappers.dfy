/** Swift's `Optional`, as a plain datatype. */
module Wrappers {

  datatype Option<T> = None | Some(value: T)
}
