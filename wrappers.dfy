/** The optional value used for fields that a fetched JSON record may lack. */
module Wrappers {
  datatype Option<+T> = None | Some(value: T)
}
