/** What a handler sends back, and how the body of a `try` block can end. */
module Responses {
  import opened Wrappers
  import opened Schema

  /** SQLSTATE of a unique-constraint violation in PostgreSQL. */
  const UniqueViolation := "23505"

  /** `res.status(status).json({ success, message?, facility? })`. */
  datatype Response = Response(status: int, success: bool, message: Option<string>, facility: Option<Facility>)

  /**
   * The end of a `try` block: it returned a response, or it threw an error
   * carrying `code` (`None` for an error with no `code` property).
   */
  datatype Flow = Returned(response: Response) | Threw(code: Option<string>)
}
