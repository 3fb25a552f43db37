/** The small optional-value datatype the model uses for lookups that can miss. */
module Wrappers {

  datatype Option<+T> = None | Some(value: T)
}
