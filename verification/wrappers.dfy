/** The optional-value datatype used for partial results throughout the model. */
module Wrappers {

  /** A value that may be absent: `None` models a NULL/absent result. */
  datatype Option<+T> = None | Some(value: T)
}
