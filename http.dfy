/** The outcomes an ASP.NET controller action returns, with their message bodies. */
module Http {

  /** `Ok(value)`, `BadRequest(message)`, `NotFound(message)` and
      `StatusCode(code, message)`. */
  datatype ActionResult<+T> =
    | Ok(value: T)
    | BadRequest(message: string)
    | NotFound(message: string)
    | StatusCode(code: int, message: string)
}
