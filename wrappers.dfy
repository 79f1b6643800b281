/** The optional value used throughout the model for Java's nullable results. */
module Wrappers {

  datatype Option<+T> = None | Some(value: T)
}
