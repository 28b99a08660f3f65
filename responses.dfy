/**
 * What a controller action hands back to the framework. Rendering, file
 * delivery and logging are done by the framework afterwards; here they are
 * the values the action passes to `render`, `send_file`, `head` and
 * `Rails.logger.warn`.
 */
module Responses {
  import opened RubyValues

  /** The HTTP statuses the actions name as symbols. */
  datatype Status = BadRequest | NotFound | Forbidden

  /** A database row of `Document`, as `Document.find_by` returns it. */
  datatype Document = Document(
    id: int,
    userId: Option<int>,    // `user_id` may be NULL
    filePath: string,
    contentType: string,
    filename: string)

  /** The signed-in user, `current_user`; `id` is `nil` for a user not saved to the database. */
  datatype User = User(id: Option<int>)

  /** The one terminal call an action makes. */
  datatype Outcome =
    | Render(value: Value)              // render value
    | RenderPartial(value: Value)       // render partial: value
    | RenderTemplate(value: Value)      // render template: value
    | RenderFile(value: Value)          // render file: value
    | SendFile(path: string, contentType: string, disposition: string, filename: string)
    | Plain(status: Status, body: string)   // render plain: body, status: status
    | Head(status: Status)                  // head status

  /** The terminal call together with the lines written by `Rails.logger.warn`, in order. */
  datatype Response = Response(outcome: Outcome, warnings: seq<string>)
}
