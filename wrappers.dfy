/** The optional value the DNS tester writes as Python's `None` or a value. */
module Wrappers {

  /** An absent measurement (`None`) or a present one. */
  datatype Option<+T> = None | Some(value: T)
}
