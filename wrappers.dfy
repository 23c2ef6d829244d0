/** `Option<T>`, as the program's `Option` return values use it. */
module Wrappers {

  datatype Option<+T> = None | Some(value: T)
}
