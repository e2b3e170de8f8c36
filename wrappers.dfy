/** Result types standing for the C++ exceptions that the
    validators throw: a validator either passes or fails with a reason. */
module Wrappers {

  datatype Option<+T> = None | Some(value: T)

  /** Outcome of a validation: `Pass`, or `Fail` with the reason that the C++
      code would have put in its exception message. */
  datatype Outcome<+E> = Pass | Fail(error: E)
}
