/** The optional value used wherever the program reads something that may be
    absent (a missing cell) or fail (a parser that throws). */
module Wrappers {

  datatype Option<+T> = None | Some(value: T)

}
