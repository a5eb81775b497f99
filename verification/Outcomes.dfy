/** Small result types shared by the models. */
module Outcomes {
  datatype Option<+T> = None | Some(value: T)

  /** A file operation or check of the source either succeeds or raises. */
  datatype Result<+T> = Ok(value: T) | Refused
}
