/** The optional value the tracker returns where Python returns `None`. */
module Wrappers {

  datatype Option<+T> = None | Some(value: T)
}
