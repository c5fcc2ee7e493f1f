/** The optional-value datatype the rest of the model uses for JavaScript's
    "a string or null". */
module Wrappers {

  datatype Option<+T> = None | Some(value: T)
}
