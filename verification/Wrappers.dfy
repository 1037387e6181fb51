/** Optional values and results shared by the modules. */
module Wrappers {

  datatype Option<+T> = None | Some(value: T)

  datatype Result<+T, +E> = Ok(value: T) | Err(error: E)

  function Or<T>(change: Option<T>, otherwise: T): T {
    if change.Some? then change.value else otherwise
  }

  function OrElse<T>(change: Option<T>, otherwise: Option<T>): Option<T> {
    if change.Some? then change else otherwise
  }
}
