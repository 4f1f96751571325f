/**
  Optional values and the outcome of a call that may raise. The drivers signal
  most failures by letting a Python exception escape to the framework; the model
  reports such a call as Raised.
 */
module Outcomes {

  datatype Option<+T> = None | Some(value: T)

  /** The result of a Python call that either returns a value or raises. */
  datatype Outcome<+T> = Raised | Returned(value: T)
}
