/** The message shapes exchanged between the page and the background
    worker: the request `{id, type, payload}` and the reply
    `{id, type, result?, error?}`. The field called `type` in the source is
    `kind` here, `type` being a Dafny keyword. */
module Messages {
  import opened Wrappers

  /** The part of a JavaScript value the model distinguishes: missing, a
      string, or anything else. */
  datatype JsValue = Undefined | Str(s: string) | NonString

  /** A request payload: `undefined`/`null` (reading a property of it
      throws), or an object whose `text` property holds some value. */
  datatype Payload = Absent | Present(text: JsValue)

  /** The request sent to the worker. */
  datatype WorkerMessage = WorkerMessage(id: string, kind: string, payload: Payload)

  /** The worker's reply; `kind` is "success" or "error". */
  datatype WorkerResponse = WorkerResponse(id: string, kind: string, result: JsValue, error: Option<string>)
}
