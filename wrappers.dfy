/** A C pointer that may be NULL, as used by the functions that check their
    arguments before use. */
module Wrappers {

  datatype Option<+T> = None | Some(value: T)
}
