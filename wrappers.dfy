/** The optional value used for Python's `None`-or-value results and for
    parses that fail. */
module Wrappers {

  datatype Option<+T> = None | Some(value: T)
}
