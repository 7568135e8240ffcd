/** Datatypes shared by the components. */
module Basics {
  datatype Option<+T> = None | Some(value: T)
}
