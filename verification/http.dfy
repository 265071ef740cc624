/** The HTTP responses the controllers produce. */
module Http {
  import opened Wrappers

  /** A status code and, for the responses that carry one, a body. */
  datatype Response<T> = Response(status: int, body: Option<T>)

  const Ok: int := 200
  const Created: int := 201
  const NoContent: int := 204
  const BadRequest: int := 400
  const Forbidden: int := 403
  const NotFound: int := 404
  const InternalServerError: int := 500
}
