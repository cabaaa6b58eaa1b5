/** The optional value used wherever the program uses `std::optional`. */
module Wrappers {
  datatype Option<+T> = None | Some(value: T)
}
