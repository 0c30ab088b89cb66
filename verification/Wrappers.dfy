/** The optional value every other module uses where the source returns `std::optional`. */
module Wrappers {

  datatype Option<+T> = None | Some(value: T)
}
