/** Optional values and HTTP-style outcomes shared by the whole model. */
module Wrappers {

  /** A value that may be absent (JavaScript `undefined`/`null`, or `NaN` for numbers). */
  datatype Option<+T> = None | Some(value: T) {
    function GetOr(default: T): T {
      match this
      case Some(v) => v
      case None => default
    }
  }

  /** What a request handler sends back: a JSON body, or an error status with its message. */
  datatype Response<+T> = Ok(body: T) | Status(code: int, message: string)
}
