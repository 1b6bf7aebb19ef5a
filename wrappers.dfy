/** The optional value used for whatever may be absent: a storage key that was never written. */
module Wrappers {

  datatype Option<+T> = None | Some(value: T)
}
