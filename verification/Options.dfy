/** A value that may be missing, and a result that may be an error. */
module Options {
  datatype Option<+T> = None | Some(value: T)
  datatype Result<+T> = Ok(value: T) | Error
}
