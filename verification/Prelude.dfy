/** Small value types shared by the modules. */
module Prelude {
  datatype Option<+T> = None | Some(value: T)
}
