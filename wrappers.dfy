/** The optional result the statistical reducers return: Rust's `Option`. */
module Wrappers {

  datatype Option<+T> = None | Some(value: T)
}
