/** What an Express handler does with a request, and the status rule shared by the axios calls. */
module HttpReplies {
  import opened JsValues

  datatype Body =
    | Empty
    | Text(text: string)
    | JsonDoc(doc: Document)
    | ErrorMessage(error: string)      // `{ error: ... }`
    | Message(message: string)         // `{ message: ... }`

  datatype Reply =
    | Send(status: int, body: Body)    // `res.status(s).send(b)` / `res.json(d)`
    | StatusOnly(status: int)          // `res.status(s)` with nothing sent
    | Next                             // `next()`: the request falls through
    | ToErrorHandler(message: string)  // an error handed to the framework's error handler
    | NoReply                          // a rejection escapes the handler; nothing is sent

  /** What `deployNewRelease(file, versionName)` did; its code is not part of this model. */
  datatype DeployOutcome = Deployed | DeployFailed

  /** A handled upload request: the reply, and whether deployNewRelease was called. */
  datatype Handled = Handled(reply: Reply, deployCalled: bool)

  const ZipMime: string := "application/zip"
  const ZipCompressedMime: string := "application/x-zip-compressed"

  /** `validateStatus: (status) => status >= 200 && status <= 303` */
  predicate AcceptedStatus(status: int)
  {
    200 <= status <= 303
  }
}
