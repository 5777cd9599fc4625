/** Option type used for the partial inverses (parsers) of the model. */
module Wrappers {

  datatype Option<+T> = None | Some(value: T)

}
