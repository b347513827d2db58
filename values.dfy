/** Value types shared by the sales engine and the item store: optional
    values, results with an error, JSON values as the HTTP layer sees them,
    and the HTTP errors the handlers raise with `abort`. */
module Values {

  datatype Option<+T> = None | Some(value: T)

  datatype Result<+T, +E> = Success(value: T) | Failure(error: E)

  /** A JSON value as produced by `request.get_json` or consumed by `jsonify`. */
  datatype Json =
    | JNull
    | JBool(b: bool)
    | JInt(i: int)
    | JReal(r: real)
    | JStr(s: string)
    | JArr(items: seq<Json>)
    | JObj(fields: map<string, Json>)

  /** The errors the handlers end with: `abort(400, ...)`, `abort(404, ...)`,
      or an uncaught exception, which Flask turns into a 500 response. */
  datatype HttpError =
    | BadRequest(description: string)
    | NotFound(description: string)
    | ServerError
  {
    function Status(): (code: int)
      ensures code == 400 <==> BadRequest?
      ensures code == 404 <==> NotFound?
      ensures code == 500 <==> ServerError?
    {
      match this
      case BadRequest(_) => 400
      case NotFound(_) => 404
      case ServerError => 500
    }
  }
}
