/** Option and Result values used across the model for JavaScript's
    `undefined`/`null` and for error returns. */
module Wrappers {

  /** `None` stands for `undefined` or `null`. */
  datatype Option<+T> = None | Some(value: T) {
    function GetOr(default: T): T {
      match this
      case Some(v) => v
      case None => default
    }
  }

  /** JavaScript truthiness of an optional string: present and non-empty. */
  predicate Truthy(s: Option<string>) {
    s.Some? && s.value != ""
  }

  /** A handler's outcome: a value, or the error it answers with. */
  datatype Result<+R, +E> = Success(value: R) | Failure(error: E)

  /** An octet, as the elements of a `Uint8Array` or a `Buffer`. */
  type Byte = b: int | 0 <= b < 256

  /** An HTTP error response: the status code and the `error` message. */
  datatype HttpError = HttpError(status: nat, message: string)
}
