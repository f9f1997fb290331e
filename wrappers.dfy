/** The optional value used for "a rule matched or did not" and "a vital is present or absent". */
module Wrappers {

  datatype Option<+T> = None | Some(value: T)
}
