/** An optional value, used for the results of parsers that may reject their input. */
module Wrappers {

  datatype Option<+T> = None | Some(value: T)

}
