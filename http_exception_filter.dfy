/**
 * `HttpExceptionFilter`: the second catch-all filter.  It keeps any HTTP exception's own status
 * and message, answers 500 with a fixed message for anything else, and never reports
 * validation errors.
 */
module HttpExceptionFilter {
  import opened Wrappers
  import opened JsValue
  import opened Exceptions
  import opened Http
  import Global = GlobalExceptionFilter

  const INTERNAL_SERVER_ERROR_MESSAGE: string := "Internal server error"

  /** The status `catch` writes. */
  function Status(exception: Exception): (r: int)
    ensures exception.HttpException? ==> r == exception.status
    ensures !exception.HttpException? ==> r == 500
  {
    if exception.HttpException? then exception.status else 500
  }

  /** The body `catch` writes; `isoNow` is `new Date().toISOString()`. */
  function ErrorBody(exception: Exception, url: string, isoNow: string): (r: Value)
    ensures r.Obj? && r.fields.Keys == {"success", "statusCode", "message", "path", "timestamp"}
    ensures Field(r, "statusCode") == Num(Status(exception)) && Field(r, "success") == Bool(false)
    ensures Field(r, "message") ==
              Str(if exception.HttpException? then exception.message else INTERNAL_SERVER_ERROR_MESSAGE)
    ensures Field(r, "path") == Str(url) && Field(r, "timestamp") == Str(isoNow)
    ensures Field(r, "errors") == Undefined && Field(r, "data") == Undefined
  {
    var message := if exception.HttpException? then exception.message else INTERNAL_SERVER_ERROR_MESSAGE;
    Obj(map["success" := Bool(false), "statusCode" := Num(Status(exception)), "message" := Str(message),
            "path" := Str(url), "timestamp" := Str(isoNow)])
  }

  method Catch(exception: Exception, request: HttpRequest, response: HttpResponse, isoNow: string)
    modifies response
    ensures response.status == Num(Status(exception))
    ensures response.body == Some(ErrorBody(exception, request.url, isoNow))
    ensures response.cookieWrites == old(response.cookieWrites)
  {
    var status := Status(exception);
    response.status := Num(status);
    response.body := Some(ErrorBody(exception, request.url, isoNow));
  }

  /**
   * The two filters disagree on a status the application does not name: a 422 stays 422 here
   * and becomes 500 in the global filter.
   */
  lemma FiltersDisagreeOn422(message: string, body: Value)
    ensures var e := HttpException(UnprocessableKind, 422, body, message);
            Status(e) == 422 && Global.Select(e).status == 500
  {
  }

  /** The two filters agree on the status of every exception whose status the application names. */
  lemma FiltersAgreeOnKnownStatuses(exception: Exception)
    requires !exception.HttpException? || exception.status in Global.STATUS_MAP
    ensures Status(exception) == Global.Select(exception).status
  {
  }
}
