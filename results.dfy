/** Optional values and the outcome of an operation that may raise. */
module Results {

  datatype Option<+T> = None | Some(value: T)

  /** `Err` carries `str(e)` of the exception the Python code raises: the text the user is shown. */
  datatype Result<+T> = Ok(value: T) | Err(message: string)
}
