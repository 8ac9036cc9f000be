/** The outcomes a route handler can answer with: a JSON body, or an error status with its message. */
module Http {

  datatype Response<T> =
    | Ok(body: T)               // 200 with the JSON body
    | BadRequest(error: string) // 400
    | NotFound(error: string)   // 404
    | ServerError(error: string) // 500, the catch-all of every handler
}
