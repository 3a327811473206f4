/**
 * Shared result types of the account backend: optional values, the
 * success-or-failure result of a handler, and the failures a handler can end
 * with (an ApiError thrown by a controller, a rejection by the document
 * store, or a failed email dispatch).
 */
module Common {

  datatype Option<+T> = None | Some(value: T)

  datatype Result<+T, +E> = Ok(value: T) | Err(error: E)

  /** Why the document store refused a write or a query. */
  datatype DbError =
    | ValidationError   // a `required` or `enum` schema rule failed
    | DuplicateKey      // the partial unique index on email rejected the write
    | NegativeSkip      // the server refused a query with a negative `skip`

  /** How a request handler can fail. */
  datatype Failure =
    | ApiError(status: int, message: string)
    | StoreRejected(reason: DbError)
    | MailNotSent

  /** JavaScript truthiness of a request field that is a string or absent: `undefined` and "" are falsy. */
  predicate Truthy(s: Option<string>)
  {
    s.Some? && s.value != ""
  }
}
