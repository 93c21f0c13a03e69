/** Small failure-carrying datatypes shared by the modules of this project:
    a Java `null`-or-object return becomes an Option, and a method that either
    returns normally or throws becomes an Outcome. */
module Outcomes {

  datatype Option<+T> = None | Some(value: T)

  /** Pass: the operation returned normally; Fail: it raised `error`. */
  datatype Outcome<+E> = Pass | Fail(error: E)
}
