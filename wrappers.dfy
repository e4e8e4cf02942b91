/** The optional value used for "no winner yet" and "no current room". */
module Wrappers {
  datatype Option<+T> = None | Some(value: T)
}
