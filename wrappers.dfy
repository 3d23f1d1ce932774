/** The one failure-compatible datatype the model needs. */
module Wrappers {

  datatype Option<+T> = None | Some(value: T)
}
