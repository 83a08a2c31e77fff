/** The optional value used for absent JSON fields and for "no failing command". */
module Wrappers {
  datatype Option<+T> = None | Some(value: T)
}
