/**
 * `GlobalExceptionFilter`: turns any thrown value into the error envelope.  HTTP exceptions keep
 * their status when it is one of the application's known statuses (any other becomes 500) and
 * contribute the `message` and `errors` of their response body; anything else is a 500 with a
 * fixed message.
 */
module GlobalExceptionFilter {
  import opened Wrappers
  import opened JsValue
  import opened Exceptions
  import opened Http
  import ApiResponse

  const INTERNAL_SERVER_ERROR: int := 500
  const UNEXPECTED_ERROR: string := "An unexpected error occurred."

  /** The statuses the application names, each mapped to itself. */
  const STATUS_MAP: map<int, int> := map[
    200 := 200, 201 := 201, 400 := 400, 401 := 401, 403 := 403,
    404 := 404, 409 := 409, 500 := 500, 503 := 503, 504 := 504]

  /** `mapHttpStatus`: a known status is kept, any other becomes 500. */
  function MapHttpStatus(status: int): (r: int)
    ensures r in STATUS_MAP.Keys
    ensures status in STATUS_MAP ==> r == status
    ensures status !in STATUS_MAP ==> r == INTERNAL_SERVER_ERROR
  {
    if status in STATUS_MAP && STATUS_MAP[status] != 0 then STATUS_MAP[status] else INTERNAL_SERVER_ERROR
  }

  /** The status, message and validation errors `catch` extracts from the thrown value. */
  datatype Selection = Selection(status: int, message: Value, errors: Value)

  function Select(exception: Exception): (s: Selection)
    ensures s.status in STATUS_MAP.Keys
    ensures !exception.HttpException? ==> s == Selection(500, Str(UNEXPECTED_ERROR), Undefined)
    ensures exception.HttpException? ==>
              && s.status == MapHttpStatus(exception.status)
              && Truthy(s.message)
              && (Truthy(Field(exception.response, "message")) ==> s.message == Field(exception.response, "message"))
              && (!Truthy(Field(exception.response, "message")) ==> s.message == Str(UNEXPECTED_ERROR))
              && s.errors == Field(exception.response, "errors")
  {
    if exception.HttpException? then
      var response := exception.response;
      var message := if Truthy(Field(response, "message")) then Field(response, "message") else Str(UNEXPECTED_ERROR);
      Selection(MapHttpStatus(exception.status), message, Field(response, "errors"))
    else Selection(INTERNAL_SERVER_ERROR, Str(UNEXPECTED_ERROR), Undefined)
  }

  /** `catch`: writes the mapped status and the error envelope for the request's URL. */
  method Catch(exception: Exception, request: HttpRequest, response: HttpResponse, now: int)
    modifies response
    ensures var s := Select(exception);
            response.status == Num(s.status) &&
            response.body == Some(ApiResponse.Error(s.message, request.url, s.status, s.errors, now))
    ensures response.cookieWrites == old(response.cookieWrites)
  {
    var s := Select(exception);
    var errorResponse := ApiResponse.Error(s.message, request.url, s.status, s.errors, now);
    response.status := Num(s.status);
    response.body := Some(errorResponse);
  }

  /**
   * The envelope agrees with what was written and where: its `statusCode` is the status written
   * (a known one), its `message` the selected one and its `path` the request's URL.
   */
  lemma BodyAgreesWithStatus(exception: Exception, url: string, now: int)
    ensures var s := Select(exception);
            var body := ApiResponse.Error(s.message, url, s.status, s.errors, now);
            && Field(body, "statusCode") == Num(s.status) && Field(body, "success") == Bool(false)
            && Field(body, "message") == s.message && Truthy(Field(body, "message"))
            && Field(body, "path") == Str(url)
            && s.status in {200, 201, 400, 401, 403, 404, 409, 500, 503, 504}
  {
  }

  /** A 404 keeps its status and the message it was thrown with. */
  lemma NotFoundKeepsMessage(message: string)
    requires message != ""
    ensures Select(NotFound(message)) == Selection(404, Str(message), Undefined)
  {
    assert Field(NotFound(message).response, "message") == Str(message);
  }

  /**
   * A string-bodied HttpException (as the upload helper throws) has no `message` property, so
   * its text is replaced by the generic message.
   */
  lemma StringBodyLosesText(text: string)
    ensures Select(PlainHttp(text, 500)) == Selection(500, Str(UNEXPECTED_ERROR), Undefined)
  {
  }
}
