/** The optional value used for nullable references and absent request fields. */
module Wrappers {

  datatype Option<+T> = None | Some(value: T)
}
