/** Option and Result types shared by the whole model. */
module Wrappers {

  /** Python's `None` versus a present value. */
  datatype Option<+T> = None | Some(value: T)

  /** How a request can be refused: a malformed argument (HTTP 400), an
      exception inside a handler (HTTP 500) or a missing database URL. */
  datatype Failure = BadRequest | InternalError | MissingDbUrl

  datatype Result<+T> = Ok(value: T) | Err(failure: Failure)
}
