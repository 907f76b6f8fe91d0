/** Stand-ins for Go's nil pointers and (value, error) pairs. */
module Options {

  datatype Option<+T> = None | Some(value: T)

  datatype Result<+T, +E> = Ok(value: T) | Err(error: E)
}
