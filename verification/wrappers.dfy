/** The optional value used for the command-line's optional arguments
    (an invocation URL that may be absent) and for the poll loop's stop index. */
module Wrappers {

  datatype Option<+T> = None | Some(value: T)
}
