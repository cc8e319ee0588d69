/** The typed failures of the chat domain and the Result wrapper that carries
    them. Every transition of the domain returns a Result instead of raising. */
module Errors {

  /** The exception classes of the domain. `KeyError` stands for Python's
      built-in exception, raised when a dictionary is indexed at a missing key
      (remove_user does this when a user's channel is absent). */
  datatype Error =
    | AccessError
    | DuplicateUser
    | UserNotFound
    | ChannelNotFound
    | KeyError
  {
    /** DuplicateUserError derives from DuplicateEntityError. */
    predicate IsDuplicateEntity() {
      DuplicateUser?
    }

    /** ChannelNotFoundError and UserNotFoundError derive from EntityNotFoundError. */
    predicate IsEntityNotFound() {
      UserNotFound? || ChannelNotFound?
    }
  }

  /** Either a new value or the error that the source raises instead. */
  datatype Result<+T> = Ok(value: T) | Err(error: Error) {

    predicate IsFailure() {
      Err?
    }

    function PropagateFailure<U>(): Result<U>
      requires Err?
    {
      Err(error)
    }

    function Extract(): T
      requires Ok?
    {
      value
    }
  }
}
