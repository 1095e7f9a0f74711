/** The Option type used where the source uses a nullable object reference. */
module Wrappers {

  datatype Option<+T> = None | Some(value: T)
}
