/**
 * Abstract actix-web values: a successful response (status, `Location` header
 * and JSON body, the body kept as the value it serialises) and an error that
 * actix renders as a response with a status code and a message.
 */
module Http {

  const StatusOk := 200
  const StatusCreated := 201
  const StatusUnauthorized := 401
  const StatusNotFound := 404
  const StatusInternalServerError := 500

  datatype HttpResponse<T> = HttpResponse(status: int, location: string, body: T)

  datatype HttpError = HttpError(status: int, message: string)

  /** The part of an `HttpRequest` the handlers read. */
  datatype HttpRequest = HttpRequest(path: string)
}
