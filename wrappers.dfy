/** Optional values (JavaScript `undefined` / SQL `null`) and the outcome of a data-service call. */
module Wrappers {

  datatype Option<+T> = None | Some(value: T)

  /** A call that either returns a value or throws; `error` names the table whose write or read failed. */
  datatype Result<+T> = Ok(value: T) | Err(error: string)
}
