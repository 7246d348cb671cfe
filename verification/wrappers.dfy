/** The optional value used throughout the model: JavaScript's `x?.f`
    yields `undefined` when `x` is missing, modelled as `None`. */
module Wrappers {

  datatype Option<+T> = None | Some(value: T)
}
