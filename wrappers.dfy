/** Option and Result values, and the kinds of HTTP error the services raise. */
module Wrappers {

  datatype Option<+T> = None | Some(value: T)

  /** The exception classes the services throw, by the status they map to:
      NotFoundException, UnauthorizedException, ConflictException, and every
      other error (InternalServerErrorException, a plain Error, a database or
      S3 failure), which the framework answers with status 500. */
  datatype Error = NotFound | Unauthorized | Conflict | Internal

  datatype Result<+T> = Ok(value: T) | Err(error: Error)

  /** JavaScript truthiness of an optional string: undefined and "" are falsy. */
  predicate Truthy(s: Option<string>)
  {
    s.Some? && s.value != ""
  }
}
