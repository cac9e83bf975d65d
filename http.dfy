/**
 * HTTP replies as the Express handlers produce them with `res.status(code).json(body)`,
 * and the outcome of one call into the database layer.
 */
module Http {
  import opened Js

  /** A reply: its status code and the JSON body sent with it. */
  datatype Response = Response(status: int, body: Json)

  /** `{ message: text }` */
  function MessageBody(text: string): Json
  {
    JObj([Field("message", JStr(text))])
  }

  /** `res.status(status).json({ message: text })` */
  function Reply(status: int, text: string): (r: Response)
    ensures r.status == status
    ensures Member(r.body, "message") == Some(JStr(text))
  {
    Response(status, MessageBody(text))
  }

  /** `res.status(400).json({ errors: errors.array() })` for the errors collected by express-validator. */
  function ValidationFailed(errors: seq<Json>): (r: Response)
    ensures r.status == 400
    ensures Member(r.body, "errors") == Some(JArr(errors))
  {
    Response(400, JObj([Field("errors", JArr(errors))]))
  }

  /** What a middleware does: hand the request on with `next()`, or answer it. */
  datatype Gate = Next | Halt(response: Response)

  /** A handler's reply, and whether it reached the service call that writes. */
  datatype Handled = Handled(response: Response, wrote: bool)

  /** How an awaited client request (axios) ended: the response data, or a thrown error carrying the server's reply if there was one. */
  datatype Axios<+T> = Succeeded(data: T) | Failed(response: Option<Response>)

  /** What an awaited query gave: its rows, or a thrown storage error. */
  datatype Query<+T> = Rows(value: T) | StorageError
}
