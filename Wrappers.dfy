/** The optional value used for labels and for operations that can abort. */
module Wrappers {

  datatype Option<+T> = None | Some(value: T)
}
