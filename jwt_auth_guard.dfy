/**
 * `JwtAuthGuard`: finds the session token of an HTTP request (bearer header first, then the
 * `Authentication` cookie) or of an RPC payload, verifies it, loads the user it names and
 * attaches that user to the request.  Every failure after the token is found is a bare 401.
 */
module JwtAuthGuard {
  import opened Wrappers
  import opened Exceptions
  import opened PrismaModels
  import opened Http
  import opened Jwt
  import opened Strings
  import opened JsValue
  import Users = UsersService

  const NO_TOKEN_MESSAGE: string := "No authentication token provided"
  const BEARER_PREFIX: string := "Bearer "

  /** The header's token: what follows a case-sensitive "Bearer " prefix (possibly empty). */
  function BearerToken(authorization: Option<string>): (r: Option<string>)
    ensures r.Some? <==> authorization.Some? && StartsWith(authorization.value, BEARER_PREFIX)
    ensures r.Some? ==> authorization.value == BEARER_PREFIX + r.value
  {
    if authorization.Some? && StartsWith(authorization.value, BEARER_PREFIX) then
      var h := authorization.value;
      assert h == h[..7] + h[7..];
      Some(h[7..])
    else None
  }

  /** `request.cookies?.Authentication`: absent when there are no parsed cookies. */
  function CookieToken(cookies: Option<map<string, string>>): (r: Option<string>)
    ensures r.Some? <==> cookies.Some? && "Authentication" in cookies.value
    ensures r.Some? ==> r.value == cookies.value["Authentication"]
  {
    if cookies.Some? && "Authentication" in cookies.value then Some(cookies.value["Authentication"]) else None
  }

  /**
   * `getAuthentication`: the token the guard goes on with, or the "no token" 401.  For HTTP a
   * non-empty bearer token wins and the cookie is the fallback; for RPC it is the payload's
   * `Authentication`, whatever truthy value it holds; any other context type has none.
   */
  function ExpectedToken(ctx: ExecutionContext): (r: Result<Value, Exception>)
    ensures r.Ok? ==> Truthy(r.value)
    ensures r.Err? ==> r.error == Unauthorized(NO_TOKEN_MESSAGE)
    ensures ctx.OtherContext? ==> r.Err?
    ensures ctx.RpcContext? ==>
              (r.Ok? <==> Truthy(ctx.data.authentication)) && (r.Ok? ==> r.value == ctx.data.authentication)
    ensures ctx.HttpContext? ==>
              var bearer := BearerToken(ctx.request.authorization);
              var cookie := CookieToken(ctx.request.cookies);
              (bearer.Some? && bearer.value != "" ==> r == Ok(Str(bearer.value))) &&
              (bearer.None? || bearer.value == "" ==>
                 (r.Ok? <==> cookie.Some? && cookie.value != "") && (r.Ok? ==> r.value == Str(cookie.value)))
  {
    match ctx
    case RpcContext(data, _, _) =>
      if Truthy(data.authentication) then Ok(data.authentication) else Err(Unauthorized(NO_TOKEN_MESSAGE))
    case HttpContext(request, _, _) =>
      FirstOfTwo(BearerToken(request.authorization), CookieToken(request.cookies));
      var token := FirstNonEmpty([BearerToken(request.authorization), CookieToken(request.cookies)]);
      if token.Some? && token.value != "" then Ok(Str(token.value)) else Err(Unauthorized(NO_TOKEN_MESSAGE))
    case OtherContext(_) => Err(Unauthorized(NO_TOKEN_MESSAGE))
  }

  /**
   * `validateToken` without its side effect: the stored user the verified token names.  A token
   * that is not a string (jsonwebtoken refuses it), a bad signature, an expired token and an
   * unknown user all become the same bare 401.
   */
  function ValidateToken(jwt: JwtService, token: Value, nowMs: int, users: map<string, User>)
    : (r: Result<User, Exception>)
    ensures r.Ok? <==> token.Str? && Verify(jwt, token.s, nowMs).Ok? && Verify(jwt, token.s, nowMs).value.userId in users
    ensures r.Ok? ==> r.value == users[Verify(jwt, token.s, nowMs).value.userId]
    ensures r.Err? ==> r.error == UnauthorizedDefault()
  {
    if !token.Str? then Err(UnauthorizedDefault())
    else
      match Verify(jwt, token.s, nowMs)
      case Err(_) => Err(UnauthorizedDefault())
      case Ok(payload) =>
        match Users.FindOne(users, payload.userId)
        case Err(_) => Err(UnauthorizedDefault())
        case Ok(user) => Ok(user)
  }

  /** The guard's decision: a stored user, or a 401 (with the "no token" message when none was found). */
  function Authenticate(ctx: ExecutionContext, jwt: JwtService, nowMs: int, users: map<string, User>)
    : (r: Result<User, Exception>)
    ensures r.Err? ==> r.error.HttpException? && r.error.kind == UnauthorizedKind && r.error.status == 401
    ensures r.Ok? ==> exists id :: id in users && users[id] == r.value
    ensures ExpectedToken(ctx).Err? ==> r == Err(Unauthorized(NO_TOKEN_MESSAGE))
    ensures ExpectedToken(ctx).Ok? ==> r == ValidateToken(jwt, ExpectedToken(ctx).value, nowMs, users)
  {
    match ExpectedToken(ctx)
    case Err(e) => Err(e)
    case Ok(token) => ValidateToken(jwt, token, nowMs, users)
  }

  /** The objects `addUser` may write: the HTTP request or the RPC payload. */
  function Writable(ctx: ExecutionContext): set<object> {
    match ctx
    case HttpContext(request, _, _) => {request}
    case RpcContext(data, _, _) => {data}
    case OtherContext(_) => {}
  }

  /** `addUser`: sets `user` on the request or on the RPC payload; other contexts are left alone. */
  method AddUser(user: User, ctx: ExecutionContext)
    modifies Writable(ctx)
    ensures ctx.HttpContext? ==> ctx.request.user == Some(user)
    ensures ctx.RpcContext? ==> ctx.data.user == Some(user)
  {
    match ctx
    case HttpContext(request, _, _) => request.user := Some(user);
    case RpcContext(data, _, _) => data.user := Some(user);
    case OtherContext(_) =>
  }

  /** `canActivate`: true with the user attached, or the guard's 401 with nothing attached. */
  method CanActivate(ctx: ExecutionContext, jwt: JwtService, nowMs: int, users: map<string, User>)
    returns (r: Result<bool, Exception>)
    modifies Writable(ctx)
    ensures r.Ok? <==> Authenticate(ctx, jwt, nowMs, users).Ok?
    ensures r.Ok? ==> r.value
    ensures r.Err? ==> r.error == Authenticate(ctx, jwt, nowMs, users).error
    ensures ctx.HttpContext? ==>
              ctx.request.user == (if r.Ok? then Some(Authenticate(ctx, jwt, nowMs, users).value) else old(ctx.request.user))
    ensures ctx.RpcContext? ==>
              ctx.data.user == (if r.Ok? then Some(Authenticate(ctx, jwt, nowMs, users).value) else old(ctx.data.user))
  {
    var authentication := ExpectedToken(ctx);
    if authentication.Err? {
      return Err(authentication.error);
    }
    var user := ValidateToken(jwt, authentication.value, nowMs, users);
    if user.Err? {
      return Err(user.error);
    }
    AddUser(user.value, ctx);
    r := Ok(true);
  }

  /**
   * The guard never looks at `@Public()`: a route marked public still answers 401 to a request
   * that carries no token.
   */
  lemma PublicRouteStillNeedsToken(request: HttpRequest, controller: RouteMetadata, jwt: JwtService, nowMs: int, users: map<string, User>)
    requires request.authorization.None? && request.cookies.None?
    ensures Authenticate(HttpContext(request, RouteMetadata(Some(true), None, None), controller), jwt, nowMs, users)
            == Err(Unauthorized(NO_TOKEN_MESSAGE))
  {
    assert BearerToken(request.authorization).None?;
    assert CookieToken(request.cookies).None?;
  }

  /** A well-signed, unexpired token whose user has since been removed is refused. */
  lemma DeletedUserRejected(ctx: ExecutionContext, jwt: JwtService, nowMs: int, users: map<string, User>, id: string)
    requires ExpectedToken(ctx).Ok? && ExpectedToken(ctx).value.Str?
    requires Verify(jwt, ExpectedToken(ctx).value.s, nowMs) == Ok(TokenPayload(id))
    ensures Authenticate(ctx, jwt, nowMs, users - {id}) == Err(UnauthorizedDefault())
  {
  }

  /**
   * An RPC payload whose `Authentication` is truthy but not a string gets past the "no token"
   * check and is then refused by verification with the bare 401.
   */
  lemma NonStringRpcTokenRejected(data: RpcData, handler: RouteMetadata, controller: RouteMetadata,
                                  jwt: JwtService, nowMs: int, users: map<string, User>)
    requires Truthy(data.authentication) && !data.authentication.Str?
    ensures ExpectedToken(RpcContext(data, handler, controller)) == Ok(data.authentication)
    ensures Authenticate(RpcContext(data, handler, controller), jwt, nowMs, users) == Err(UnauthorizedDefault())
  {
  }

  /**
   * The prefix test is case-sensitive: "bearer abc" is not a bearer header, so the cookie's
   * token is used instead.
   */
  lemma LowercaseBearerFallsBackToCookie(url: string, body: JsValue.Value, handler: RouteMetadata, controller: RouteMetadata)
    ensures forall request: HttpRequest ::
              request.authorization == Some("bearer abc") && request.cookies == Some(map["Authentication" := "xyz"]) ==>
              ExpectedToken(HttpContext(request, handler, controller)) == Ok(Str("xyz"))
  {
    assert !StartsWith("bearer abc", BEARER_PREFIX) by {
      assert "bearer abc"[0] != BEARER_PREFIX[0];
    }
  }
}

/**
 * `LocalAuthGuard`: checks the email and password of a login request body against the user
 * table and attaches the user to the request.
 */
module LocalAuthGuard {
  import opened Wrappers
  import opened JsValue
  import opened Exceptions
  import opened PrismaModels
  import opened Http
  import Users = UsersService

  /**
   * The guard's outcome for a request body.  Destructuring a missing body throws, failures of
   * `validateUser` propagate, and an unknown email or a wrong password is a bare 401.
   */
  function LocalAuthenticate(body: Value, users: map<string, User>, hasher: Users.Hasher): (r: Result<User, Exception>)
    requires UniqueEmails(users)
    ensures body.Undefined? || body.Null? ==> r == Err(TypeError)
    ensures r.Ok? <==> && !body.Undefined? && !body.Null?
                       && Field(body, "email").Str? && Field(body, "password").Str?
                       && Users.ValidateUser(users, Field(body, "email").s, Field(body, "password").s, hasher).Some?
    ensures r.Ok? ==> && r.value.email == Field(body, "email").s
                      && hasher.compare(Field(body, "password").s, r.value.password)
                      && exists id :: id in users && users[id] == r.value
    ensures !body.Undefined? && !body.Null? && !Field(body, "email").Str? ==> r == Err(StoreValidationError)
    ensures !body.Undefined? && !body.Null? && Field(body, "email").Str? && !Field(body, "password").Str? ==>
              r == (if Users.EmailTaken(users, Field(body, "email").s)
                    then Err(PlainError("Illegal arguments: " + TypeOf(Field(body, "password")) + ", string"))
                    else Err(UnauthorizedDefault()))
    ensures !body.Undefined? && !body.Null? && Field(body, "email").Str? && Field(body, "password").Str? && r.Err? ==>
              r.error == UnauthorizedDefault()
  {
    if body.Undefined? || body.Null? then Err(TypeError)
    else
      match Users.ValidateUserValue(users, Field(body, "email"), Field(body, "password"), hasher)
      case Err(e) => Err(e)
      case Ok(None) => Err(UnauthorizedDefault())
      case Ok(Some(user)) => Ok(user)
  }

  /** `canActivate`: true with the user attached to the request, or the failure unchanged. */
  method CanActivate(request: HttpRequest, users: map<string, User>, hasher: Users.Hasher) returns (r: Result<bool, Exception>)
    requires UniqueEmails(users)
    modifies request
    ensures r.Ok? <==> LocalAuthenticate(request.body, users, hasher).Ok?
    ensures r.Ok? ==> r.value && request.user == Some(LocalAuthenticate(request.body, users, hasher).value)
    ensures r.Err? ==> r.error == LocalAuthenticate(request.body, users, hasher).error && request.user == old(request.user)
  {
    var user := LocalAuthenticate(request.body, users, hasher);
    if user.Err? {
      return Err(user.error);
    }
    request.user := Some(user.value);
    r := Ok(true);
  }
}
