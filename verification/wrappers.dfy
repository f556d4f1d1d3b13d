/** The optional value used for Go's nil-able interface values (error, os.Signal results). */
module Wrappers {

  /** Some(v) is a present value; None stands for Go's nil. */
  datatype Option<+T> = None | Some(value: T)
}
