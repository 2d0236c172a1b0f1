/** The Option type used wherever the application has a value that may be
    absent (a `null` state variable, a failed lookup, a missing query parameter). */
module Wrappers {

  datatype Option<+T> = None | Some(value: T)

}
