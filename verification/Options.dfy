/** The two small result types every module uses. */
module Options {
  datatype Option<+T> = None | Some(value: T)

  datatype Result<+T> = Ok(value: T) | Err(reason: string)
}
