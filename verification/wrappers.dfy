/** The optional-value type the model uses wherever the game's code has an `Option`. */
module Wrappers {

  datatype Option<+T> = None | Some(value: T)
}
