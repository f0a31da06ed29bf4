/** Error-carrying results: the model's stand-in for the exceptions the corpus code raises. */
module Results {

  /** Either a value or the error that Python would have raised instead. */
  datatype Result<T, E> = Ok(value: T) | Err(error: E)

}
