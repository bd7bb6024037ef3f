/**
 * `ApiResponseUtil`: the two envelopes every answer is wrapped in.  A success envelope carries
 * `data` and no `errors`; an error envelope carries `errors` (possibly undefined) and no `data`.
 * `now` is the clock reading `new Date()` takes.
 */
module ApiResponse {
  import opened JsValue

  const HTTP_OK: int := 200

  /** `ApiResponseUtil.success(data, message, path, statusCode)`. */
  function Success(data: Value, message: string, path: string, statusCode: int, now: int): (r: Value)
    ensures r.Obj? && r.fields.Keys == {"success", "statusCode", "message", "path", "timestamp", "data"}
    ensures Field(r, "success") == Bool(true) && Field(r, "statusCode") == Num(statusCode)
    ensures Field(r, "message") == Str(message) && Field(r, "path") == Str(path)
    ensures Field(r, "timestamp") == Date(now)
    ensures Field(r, "data") == data && Field(r, "errors") == Undefined
  {
    Obj(map["success" := Bool(true), "statusCode" := Num(statusCode), "message" := Str(message),
            "path" := Str(path), "timestamp" := Date(now), "data" := data])
  }

  /** `ApiResponseUtil.error(message, path, statusCode, errors)`. */
  function Error(message: Value, path: string, statusCode: int, errors: Value, now: int): (r: Value)
    ensures r.Obj? && r.fields.Keys == {"success", "statusCode", "message", "path", "timestamp", "errors"}
    ensures Field(r, "success") == Bool(false) && Field(r, "statusCode") == Num(statusCode)
    ensures Field(r, "message") == message && Field(r, "path") == Str(path)
    ensures Field(r, "timestamp") == Date(now)
    ensures Field(r, "errors") == errors && Field(r, "data") == Undefined
  {
    Obj(map["success" := Bool(false), "statusCode" := Num(statusCode), "message" := message,
            "path" := Str(path), "timestamp" := Date(now), "errors" := errors])
  }
}
