/** What a request handler hands back: a success value or an error that
    carries the HTTP status kind and the text of the JSON error body. The
    handlers send that text under the key "error", except the already-paid
    400 of the payment handler, which sends it under "message"; the key is
    not modelled. */
module Http {

  datatype Option<+T> = None | Some(value: T)

  /** 400, 403, 404 and 500 responses, each with its message. */
  datatype Error =
    | BadRequest(message: string)
    | Forbidden(message: string)
    | NotFound(message: string)
    | InternalError(message: string)

  datatype Result<+T> = Ok(value: T) | Err(error: Error)
}
