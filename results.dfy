/** Optional values and results with an error, used for Python's `None` and
    for the exceptions the modelled code raises or catches. */
module Results {

  datatype Option<+T> = None | Some(value: T)

  datatype Result<+T, +E> = Ok(value: T) | Err(error: E)
}
