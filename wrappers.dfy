/** The optional value the model uses where the page has a reference that may be `null`. */
module Wrappers {

  datatype Option<+T> = None | Some(value: T)
}
