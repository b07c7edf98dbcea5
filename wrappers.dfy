/** The optional value used wherever the game's Java code either produces a value or throws and skips. */
module Wrappers {

  datatype Option<+T> = None | Some(value: T)
}
