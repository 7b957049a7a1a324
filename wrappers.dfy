/** A small optional-value datatype used by the argument scan. */
module Wrappers {

  datatype Option<+T> = None | Some(value: T)

}
