/** Option and Result wrappers and the error taxonomy the backend throws. */
module Wrappers {

  datatype Option<+T> = None | Some(value: T)

  /** The kinds of exception the services raise, with their messages. */
  datatype Error =
    | BadRequest(message: string)
    | Unauthorized(message: string)
    | NotFound(message: string)
    | Conflict(message: string)
    | InternalServerError(message: string)
    /** A plain `Error` thrown by the code itself. */
    | Failure(message: string)
    /** The store's update or delete found no row with the given id. */
    | RecordNotFound
    /** The store was asked to write a field that is not a column of the table. */
    | UnknownArgument
    /** The store was asked to write null into a column that does not allow it. */
    | NullArgument
    /** The store was asked to create a row that refers to a user that does not exist. */
    | ForeignKeyViolation
    /** The store was asked to create a second user with an email already in use. */
    | UniqueViolation
    /** A failure reported by a foreign call (an OpenAI request, an OAuth provider). */
    | External(message: string)
  {
    /** The `error.message` a catch block reads. */
    function Message(): string {
      match this
      case BadRequest(m) => m
      case Unauthorized(m) => m
      case NotFound(m) => m
      case Conflict(m) => m
      case InternalServerError(m) => m
      case Failure(m) => m
      case RecordNotFound => "Record to update not found."
      case UnknownArgument => "Unknown argument."
      case NullArgument => "Argument must not be null."
      case ForeignKeyViolation => "Foreign key constraint failed."
      case UniqueViolation => "Unique constraint failed."
      case External(m) => m
    }
  }

  datatype Result<+T> = Ok(value: T) | Err(error: Error)
}
