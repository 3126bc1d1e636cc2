/** Option and HTTP-style response datatypes shared by every module. */
module Wrappers {

  datatype Option<+T> = None | Some(value: T) {
    function GetOr(default: T): T {
      match this
      case Some(v) => v
      case None => default
    }
  }

  /** The outcome of a request handler.
      Ok: a 200 response carrying a body.
      Fail: the handler answered with an explicit error status.
      Invalid: request schema validation threw before the handler answered. */
  datatype Response<+T> =
    | Ok(body: T)
    | Fail(status: nat, error: string)
    | Invalid(reason: string)
}
