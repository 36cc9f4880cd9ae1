/** The optional-value datatype used for PHP's nullable returns and arguments. */
module Wrappers {

  datatype Option<+T> = None | Some(value: T)
}
