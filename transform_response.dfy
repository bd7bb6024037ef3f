/**
 * `TransformResponseInterceptor`: wraps whatever a handler returns in the success envelope,
 * unless it already has a `success` property, and sets the HTTP status from the envelope's
 * `statusCode`.
 */
module TransformResponse {
  import opened Wrappers
  import opened JsValue
  import opened Http
  import ApiResponse

  const SUCCESS_MESSAGE: string := "Operation successful"

  /** A value the interceptor passes through untouched: `data?.success !== undefined`. */
  predicate IsEnvelope(data: Value) {
    Field(data, "success") != Undefined
  }

  /** The body the interceptor sends for a handler result. */
  function Transform(data: Value, url: string, now: int): (r: Value)
    ensures IsEnvelope(r)
    ensures IsEnvelope(data) ==> r == data
    ensures !IsEnvelope(data) ==>
              && r == ApiResponse.Success(data, SUCCESS_MESSAGE, url, ApiResponse.HTTP_OK, now)
              && Field(r, "data") == data && Field(r, "statusCode") == Num(200)
  {
    if IsEnvelope(data) then data
    else ApiResponse.Success(data, SUCCESS_MESSAGE, url, ApiResponse.HTTP_OK, now)
  }

  /** The `map` step of `intercept`: sets the status from the body it returns. */
  method Intercept(data: Value, request: HttpRequest, response: HttpResponse, now: int) returns (r: Value)
    modifies response
    ensures r == Transform(data, request.url, now)
    ensures response.status == Field(r, "statusCode")
    ensures response.body == old(response.body) && response.cookieWrites == old(response.cookieWrites)
  {
    if Field(data, "success") != Undefined {
      response.status := Field(data, "statusCode");
      return data;
    }
    var transformed := ApiResponse.Success(data, SUCCESS_MESSAGE, request.url, ApiResponse.HTTP_OK, now);
    response.status := Field(transformed, "statusCode");
    r := transformed;
  }

  /** Wrapping twice is wrapping once: an envelope is never wrapped again, whatever the request. */
  lemma TransformIdempotent(data: Value, url: string, now: int, url2: string, later: int)
    ensures Transform(Transform(data, url, now), url2, later) == Transform(data, url, now)
  {
  }

  /**
   * A handler result that merely has a `success` field is taken for an envelope: without a
   * `statusCode` the status written is undefined and nothing is wrapped.
   */
  lemma LookalikeNotWrapped(url: string, now: int)
    ensures var data := Obj(map["success" := Bool(false)]);
            Transform(data, url, now) == data && Field(Transform(data, url, now), "statusCode") == Undefined
  {
  }

  /**
   * An envelope a controller already built with either helper is sent as built, so the status
   * written is the one the controller chose (201 on registration, say).
   */
  lemma BuiltEnvelopesPassThrough(data: Value, message: string, path: string, statusCode: int, now: int,
                                  errorMessage: Value, errors: Value, url: string, later: int)
    ensures var ok := ApiResponse.Success(data, message, path, statusCode, now);
            Transform(ok, url, later) == ok && Field(Transform(ok, url, later), "statusCode") == Num(statusCode)
    ensures var err := ApiResponse.Error(errorMessage, path, statusCode, errors, now);
            Transform(err, url, later) == err && Field(Transform(err, url, later), "statusCode") == Num(statusCode)
  {
  }
}
