/** Values that may be missing, and results that may be an error message. */
module Results {
  datatype Option<+T> = None | Some(value: T)
  datatype Result<+T> = Ok(value: T) | Err(error: string)
}
