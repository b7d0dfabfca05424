/** The optional value used throughout the model: a missing `dataset.rotation`,
    a sidebar button that a search did not find, a `parseInt` that gave NaN. */
module Wrappers {

  datatype Option<+T> = None | Some(value: T)
}
