/** Optional values and results with an error message, for the source's
    exceptions and "may fail" returns. */
module Wrappers {

  datatype Option<+T> = None | Some(value: T)

  datatype Result<+T> = Ok(value: T) | Err(error: string)
}
