/** What the HTTP handlers share: the request as they read it, the response, and the common error texts. */
module Http {
  import opened Json

  /** The parts of a request a handler reads: the method, the signed-in user's address and the parsed body. */
  datatype Request = Request(httpMethod: string, email: string, body: Json)

  /** A status code and a JSON body of the handler's own shape. */
  datatype Response<B> = Response(status: int, body: B)

  const METHOD_NOT_ALLOWED: string := "Method not allowed"
  const INVALID_REQUEST: string := "Invalid request"
}
