/** Result types shared by every component. Error messages are not modelled. */
module Wrappers {
  datatype Option<+T> = None | Some(value: T)

  datatype Result<+T> = Failed | Done(value: T)
}
