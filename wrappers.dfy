/** Optional values and the outcome of a service call: a value, or the
    `NotFoundException` a NestJS service throws (mapped to HTTP 404). */
module Wrappers {

  datatype Option<T> = None | Some(value: T) {
    /** The value, or `fallback` when absent. */
    function GetOr(fallback: T): T {
      if Some? then value else fallback
    }
  }

  datatype Error = NotFound(message: string)

  datatype Result<T> = Ok(value: T) | Err(error: Error)
}
