/**
 * `JwtStrategy`: the Passport strategy that reads the session token from the `Authentication`
 * cookie first and from a bearer header second, verifies it with expiry enforced, and loads the
 * user it names.
 */
module JwtStrategy {
  import opened Wrappers
  import opened Exceptions
  import opened PrismaModels
  import opened Http
  import opened Jwt
  import opened Strings
  import Users = UsersService
  import Guard = JwtAuthGuard
  import JsValue

  /** Expired tokens are refused (`ignoreExpiration: false`); `Verify` enforces it. */
  const IGNORE_EXPIRATION: bool := false

  /**
   * The cookie extractor: `request?.cookies['Authentication']`, null when falsy.  The optional
   * chain guards only the request, so reading a cookie when no cookie parser has filled
   * `request.cookies` throws.
   */
  function CookieExtractor(cookies: Option<map<string, string>>): (r: Result<Option<string>, Exception>)
    ensures cookies.None? <==> r == Err(TypeError)
    ensures r.Ok? ==> (r.value.Some? <==> "Authentication" in cookies.value && cookies.value["Authentication"] != "")
    ensures r.Ok? && r.value.Some? ==> r.value.value == cookies.value["Authentication"]
  {
    match cookies
    case None => Err(TypeError)
    case Some(jar) =>
      if "Authentication" in jar && jar["Authentication"] != "" then Ok(Some(jar["Authentication"])) else Ok(None)
  }

  /**
   * `ExtractJwt.fromExtractors([cookie, bearer])`: the first extractor giving a truthy token
   * wins.  `headerExtractor` is the library's bearer-header extractor, applied to the
   * Authorization header.
   */
  function ExtractToken(request: HttpRequest, headerExtractor: Option<string> -> Option<string>)
    : (r: Result<Option<string>, Exception>)
    ensures request.cookies.None? <==> r == Err(TypeError)
    ensures r.Ok? && CookieExtractor(request.cookies).value.Some? ==> r.value == CookieExtractor(request.cookies).value
    ensures r.Ok? && CookieExtractor(request.cookies).value.None? ==>
              var h := headerExtractor(request.authorization);
              r.value == (if h.Some? && h.value != "" then h else None)
  {
    match CookieExtractor(request.cookies)
    case Err(e) => Err(e)
    case Ok(cookie) =>
      FirstOfTwo(cookie, headerExtractor(request.authorization));
      Ok(FirstNonEmpty([cookie, headerExtractor(request.authorization)]))
  }

  /**
   * `validate`: the user the payload names.  The user table's NotFound is not an
   * UnauthorizedException, so it is replaced by a 401 "Invalid token".
   */
  function Validate(users: map<string, User>, payload: TokenPayload): (r: Result<User, Exception>)
    ensures r.Ok? <==> payload.userId in users
    ensures r.Ok? ==> r.value == users[payload.userId]
    ensures r.Err? ==> r.error == Unauthorized("Invalid token")
  {
    match Users.FindOne(users, payload.userId)
    case Ok(user) => Ok(user)
    case Err(e) => Err(if e.HttpException? && e.kind == UnauthorizedKind then e else Unauthorized("Invalid token"))
  }

  /**
   * The strategy as the Passport guard runs it: an extractor's exception propagates, a missing
   * token and a token that fails verification are Passport failures (a bare 401), and a
   * verified payload goes to `validate`.
   */
  function Authenticate(request: HttpRequest, headerExtractor: Option<string> -> Option<string>,
                        jwt: JwtService, nowMs: int, users: map<string, User>)
    : (r: Result<User, Exception>)
    ensures request.cookies.None? ==> r == Err(TypeError)
    ensures r.Ok? ==> exists id :: id in users && users[id] == r.value
    ensures r.Ok? <==> && ExtractToken(request, headerExtractor).Ok?
                       && ExtractToken(request, headerExtractor).value.Some?
                       && Verify(jwt, ExtractToken(request, headerExtractor).value.value, nowMs).Ok?
                       && Verify(jwt, ExtractToken(request, headerExtractor).value.value, nowMs).value.userId in users
    ensures request.cookies.Some? && r.Err? ==>
              r.error == UnauthorizedDefault() || r.error == Unauthorized("Invalid token")
  {
    match ExtractToken(request, headerExtractor)
    case Err(e) => Err(e)
    case Ok(None) => Err(UnauthorizedDefault())
    case Ok(Some(token)) =>
      match Verify(jwt, token, nowMs)
      case Err(_) => Err(UnauthorizedDefault())
      case Ok(payload) => Validate(users, payload)
  }

  /**
   * Without parsed cookies every request fails with a TypeError, even one carrying a valid
   * bearer token that the header extractor would have found.
   */
  lemma NoCookieJarRejectsBearer(request: HttpRequest, headerExtractor: Option<string> -> Option<string>,
                                 jwt: JwtService, nowMs: int, users: map<string, User>, user: User)
    requires request.cookies.None?
    requires headerExtractor(request.authorization).Some?
    requires Verify(jwt, headerExtractor(request.authorization).value, nowMs) == Ok(TokenPayload(user.id))
    requires user.id in users
    ensures Authenticate(request, headerExtractor, jwt, nowMs, users) == Err(TypeError)
    ensures Guard.ValidateToken(jwt, JsValue.Str(headerExtractor(request.authorization).value), nowMs, users) == Ok(users[user.id])
  {
  }

  /**
   * When a request carries both a cookie token and a bearer token, this strategy takes the
   * cookie and the JWT guard takes the header.
   */
  lemma OppositePrecedence(request: HttpRequest, headerExtractor: Option<string> -> Option<string>,
                           handler: RouteMetadata, controller: RouteMetadata, fromCookie: string, fromHeader: string)
    requires fromCookie != "" && fromHeader != ""
    requires request.cookies.Some? && "Authentication" in request.cookies.value
    requires request.cookies.value["Authentication"] == fromCookie
    requires request.authorization == Some(Guard.BEARER_PREFIX + fromHeader)
    requires headerExtractor(request.authorization) == Some(fromHeader)
    ensures ExtractToken(request, headerExtractor) == Ok(Some(fromCookie))
    ensures Guard.ExpectedToken(HttpContext(request, handler, controller)) == Ok(JsValue.Str(fromHeader))
  {
    var h := Guard.BEARER_PREFIX + fromHeader;
    assert StartsWith(h, Guard.BEARER_PREFIX) by {
      assert h[..|Guard.BEARER_PREFIX|] == Guard.BEARER_PREFIX;
    }
    assert h[7..] == fromHeader;
  }
}
