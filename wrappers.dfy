/** The optional-value datatype used throughout the model. */
module Wrappers {

  /** A value that may be absent, as a missing storage key or an unset configuration variable. */
  datatype Option<+T> = None | Some(value: T)
}
