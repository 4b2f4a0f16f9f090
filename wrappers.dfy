/** A nullable reference (Kotlin's `T?`) as a value. */
module Wrappers {

  datatype Option<+T> = None | Some(value: T)
}
