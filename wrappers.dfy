/** The optional value used for the validators' "error or null" results. */
module Wrappers {

  datatype Option<+T> = None | Some(value: T)
}
