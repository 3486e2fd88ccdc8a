/** Optional values and HTTP replies shared by every route of the model. */
module Wrappers {

  /** A value that may be absent: JavaScript's `null`/`undefined`, or SQL NULL. */
  datatype Option<+T> = None | Some(value: T)

  /** The `(status, { message })` pair a route hands to `NextResponse.json`. */
  datatype Reply = Reply(status: int, message: string)

  const Unauthorized: Reply := Reply(401, "Unauthorized")
  const InternalError: Reply := Reply(500, "Internal server error")
}
