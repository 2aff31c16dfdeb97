/** The optional value shared by the console, the logger and the UDP client:
    Python's `None` or a present value. */
module Wrappers {

  datatype Option<T> = None | Some(value: T)
}
