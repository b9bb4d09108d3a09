/** The Option type used wherever the source either has a value or has none
    (Python's `None`, a failed decode, a missing dictionary key). */
module Wrappers {

  datatype Option<+T> = None | Some(value: T)
}
