/** The optional value shared by the edit scripts and the transmitter's dictionary. */
module Wrappers {

  datatype Option<T> = None | Some(value: T)
}
