/**
 * How a handler ends: a value, or the error it throws. The constructors tell
 * apart the branch the handler took; the status a handler sets with
 * `res.status(...)` before throwing is noted beside each one, but the
 * error middleware replaces it (see `ErrorReply`).
 */
module Errors {
  import Wrappers

  datatype Error =
    | NotFound(message: string)       // thrown after res.status(404)
    | Forbidden(message: string)      // thrown after res.status(403)
    | BadRequest(message: string)     // thrown after res.status(400)
    | Unauthorized(message: string)   // thrown after res.status(401)
    | ValidationFailed(path: string)  // a schema rule (required, enum) rejected a save
    | DuplicateKey(path: string)      // a unique index rejected a write
    | SocketNotInitialized            // io.getIO() threw because the socket was never set up

  datatype Outcome<+T> = Ok(value: T) | Fail(error: Error)

  /** The response the client receives for a thrown error; `detail` stands for `err.message`. */
  datatype Reply = Reply(status: int, message: string, detail: Wrappers.Option<Error>)

  /**
   * The application's error middleware: every error that reaches it is answered
   * with status 500 and "Internal Server Error", whatever status the handler set,
   * and the error's own message is included only in development.
   */
  function ErrorReply(e: Error, development: bool): (r: Reply)
    ensures r.status == 500 && r.message == "Internal Server Error"
    ensures r.detail.Some? <==> development
    ensures r.detail.Some? ==> r.detail.value == e
  {
    Reply(500, "Internal Server Error", if development then Wrappers.Some(e) else Wrappers.None)
  }

  /** Outside development, a caller cannot tell two failures apart from the reply. */
  lemma ProductionRepliesAgree(e1: Error, e2: Error)
    ensures ErrorReply(e1, false) == ErrorReply(e2, false)
  {
  }
}
