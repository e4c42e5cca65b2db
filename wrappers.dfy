/** The conventional optional-value datatype used by the scanner and the prompt parser. */
module Wrappers {

  datatype Option<+T> = None | Some(value: T)
}
