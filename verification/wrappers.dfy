/** The optional value used wherever the C++ returns a possibly-null pointer or
    fills an out-parameter only on success. */
module Wrappers {

  datatype Option<+T> = None | Some(value: T)
}
