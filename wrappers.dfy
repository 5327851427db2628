/** The optional value used throughout the model, for a Python value that may
    be `None` and for a cache slot that may be empty. */
module Wrappers {

  datatype Option<+T> = None | Some(value: T)
}
