/**
 * What a `fetch` against the backend can come back with. The admin console
 * looks only at `res.ok`, the JSON body and the message of a thrown error,
 * so a reply is one of those three.
 */
module Remote {
  import opened Wrappers

  datatype Reply<T> =
    | Ok(body: T)                    // `res.ok` and, for reads, the parsed JSON body
    | NotOk(error: Option<string>)   // a non-2xx status; `error` is the body's `error` field, if any
    | Threw(reason: string)          // the request or the body parse threw; `reason` is `err.message`

  /**
   * The message a handler reports for a failed call when it ignores the body:
   * `if (!res.ok) throw new Error(fallback)`, or the message of what was thrown.
   */
  function Reason<T>(reply: Reply<T>, fallback: string): (r: string)
    requires !reply.Ok?
    ensures reply.NotOk? ==> r == fallback
    ensures reply.Threw? ==> r == reply.reason
  {
    if reply.Threw? then reply.reason else fallback
  }

  /**
   * `throw new Error(errorData.error || fallback)`: the body's error field
   * when it is a non-empty string, the fallback otherwise.
   */
  function ReasonFromBody<T>(reply: Reply<T>, fallback: string): (msg: string)
    requires !reply.Ok?
    ensures reply.NotOk? && reply.error.Some? && reply.error.value != "" ==> msg == reply.error.value
    ensures reply.NotOk? && fallback != "" ==> msg != ""
    ensures reply.NotOk? && (reply.error.None? || reply.error == Some("")) ==> msg == fallback
    ensures reply.Threw? ==> msg == reply.reason
  {
    if reply.NotOk? && reply.error.Some? && reply.error.value != "" then reply.error.value
    else Reason(reply, fallback)
  }
}
