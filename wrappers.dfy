/** Option and the HTTP-shaped outcome every request handler of the backend returns. */
module Wrappers {

  datatype Option<+T> = None | Some(value: T)

  /** A JavaScript value that is "truthy" when it is present and not the empty string. */
  predicate Truthy(o: Option<string>) {
    o.Some? && o.value != ""
  }

  /**
   * The response a handler sends: a success body (200 or 201) or one of the
   * error statuses the controllers use, each with its JSON message.
   */
  datatype Response<+T> =
    | Ok(value: T)
    | Created(value: T)
    | BadRequest(message: string)
    | Unauthorized(message: string)
    | Forbidden(message: string)
    | NotFound(message: string)
    | ServerError(message: string)
  {
    predicate Success() {
      Ok? || Created?
    }

    function StatusCode(): (code: nat)
      ensures Success() <==> code < 300
    {
      match this
      case Ok(_) => 200
      case Created(_) => 201
      case BadRequest(_) => 400
      case Unauthorized(_) => 401
      case Forbidden(_) => 403
      case NotFound(_) => 404
      case ServerError(_) => 500
    }
  }
}
