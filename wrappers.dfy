/** The optional-value datatype used for absent form fields and validation results. */
module Wrappers {
  datatype Option<+T> = None | Some(value: T)
}
