/** What an endpoint hands back: a body, or an HTTP error with its status and detail. */
module Responses {

  datatype Response<T> = Ok(body: T) | HttpError(status: nat, detail: string)

  const NOT_FOUND: nat := 404
}
