/** The optional value used where the source has `null` or a falsy string. */
module Wrappers {

  datatype Option<+T> = None | Some(value: T)
}
