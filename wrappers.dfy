/** The optional value used for "not found" (npos) and "not given" throughout the model. */
module Wrappers {

  datatype Option<+T> = None | Some(value: T)
}
