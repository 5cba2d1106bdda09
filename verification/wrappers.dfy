/** The optional value that stands for Kotlin's `String?` and Swift's `String?`. */
module Wrappers {

  datatype Option<+T> = None | Some(value: T)
}
