/** Option type for the Java operations that either yield a value or throw. */
module Wrappers {

  datatype Option<+T> = None | Some(value: T)
}
