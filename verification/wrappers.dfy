/** The optional value the selection loops carry while they look for a backend. */
module Wrappers {

  datatype Option<+T> = None | Some(value: T)
}
