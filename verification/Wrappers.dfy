/** The failure-carrying results shared by every module. */
module Wrappers {
  datatype Option<+T> = None | Some(value: T)

  /** The error categories of the source that reach a caller of the log. */
  datatype Error = Invalid | NoMemory | Storage | Syscall

  datatype Result<+T> = Ok(value: T) | Err(error: Error)
}
