/** What the local HTTP handlers send back, and what the tools return to their caller. */
module Http {

  /**
   * A response body: the handler's static HTML page, a fixed JSON text, a
   * JSON error object carrying an exception's text (`{"status": "error",
   * "message": …}` or `{"success": false, "error": …}`), a plain text, or
   * nothing.
   */
  datatype Body =
    | Page
    | Json(text: string)
    | StatusErrorJson(message: string)
    | FailureJson(error: string)
    | Plain(text: string)
    | NoBody

  datatype Response = Response(status: nat, body: Body)

  /** The dictionaries the tools and the login handler return: `success` with a message or results, or `error`. */
  datatype Reply = Success(message: string) | Results(results: string) | Failure(error: string)
}
