/** Values shared by every part of the model: optional values, the error a
    FastAPI handler raises (HTTPException) and results that carry one. */
module Common {

  datatype Option<T> = None | Some(value: T)

  /** The `detail` of an HTTPException. `ExceptionText(prefix)` stands for
      `prefix` followed by `str(e)` of a caught exception, whose wording the
      model does not spell out. */
  datatype Detail = Message(text: string) | ExceptionText(prefix: string)

  datatype HttpException = HttpException(status: int, detail: Detail)

  datatype Result<T> = Ok(value: T) | Err(error: HttpException)

  /** What FastAPI answers when a handler raises an exception that is not an
      HTTPException (KeyError, TypeError, UnboundLocalError, ...). */
  const InternalServerError := HttpException(500, Message("Internal Server Error"))

  /** Python truthiness of an optional string form field or query parameter:
      None and "" are both falsy. */
  predicate Given(s: Option<string>) {
    s.Some? && s.value != ""
  }

  /** `s or default` for an optional string. */
  function OrDefault(s: Option<string>, default: string): (r: string)
    ensures Given(s) ==> r == s.value
    ensures !Given(s) ==> r == default
  {
    if Given(s) then s.value else default
  }
}
