/** Option and Python-style outcomes shared by the modules of this model. */
module Wrappers {

  /** Python's `None`, or a value. */
  datatype Option<+T> = None | Some(value: T)

  /** How a Python call ends: it returned a value, or it raised an exception. */
  datatype Outcome<+T> = Returned(value: T) | Raised(reason: string)
}
