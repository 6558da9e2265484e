/** Optional values and outcomes, shared by the models. */
module Results {

  datatype Option<+T> = None | Some(value: T)

  /** A call that returned, or threw or refused for the given reason. */
  datatype Result<+T, +R> = Ok(value: T) | Err(reason: R)
}
