/** Optional values and results with an error, used where the application
    returns `null`, `NaN` or throws. */
module Results {

  datatype Option<+T> = None | Some(value: T)

  datatype Result<+T, +E> = Ok(value: T) | Err(error: E)
}
