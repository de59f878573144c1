/** The nullable values of the Kotlin source (`T?`) as an option type. */
module Wrappers {
  datatype Option<+T> = None | Some(value: T)
}
