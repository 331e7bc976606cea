/** The optional value used for "no gesture" and for unset timestamps. */
module Wrappers {

  datatype Option<+T> = None | Some(value: T)
}
