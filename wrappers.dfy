/** Kotlin's nullable types `T?`, written as an option. */
module Wrappers {

  datatype Option<+T> = None | Some(value: T)
}
