/** Failure-carrying datatypes shared by every module of the model. */
module Wrappers {

  /** A JavaScript value that is either absent (`null`) or present. */
  datatype Option<+T> = None | Some(value: T) {
    function GetOr(default: T): T {
      match this
      case Some(v) => v
      case None => default
    }
  }

  /** The outcome of a validation or of a request that may fail. */
  datatype Result<+R, +E> = Success(value: R) | Failure(error: E)

  /**
   * A response of the HTTP collaborator, treated as an abstract input:
   * either the response body, or an error whose `response.data.message`
   * may or may not be present.
   */
  datatype Response<+D> = Ok(data: D) | Err(message: Option<string>)

  /**
   * The message a failed request is reduced to: the server's
   * `response.data.message` when it is a non-empty string, else `default`
   * (the `||` fallback of the source treats `""` like a missing message).
   */
  function ErrorMessage(message: Option<string>, default: string): (r: string)
    ensures message.Some? && message.value != "" ==> r == message.value
    ensures message.None? || message.value == "" ==> r == default
  {
    if message.Some? && message.value != "" then message.value else default
  }
}
