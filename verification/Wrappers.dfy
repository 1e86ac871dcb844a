/** An optional value, used where the source has a nullable column or a missing map entry. */
module Wrappers {

  datatype Option<+T> = None | Some(value: T)

}
