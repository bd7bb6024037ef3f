/**
 * `AuthService`: issues the session token into the `Authentication` cookie on login, clears it
 * on logout, delegates registration to the user table and resolves a token to its user.
 */
module AuthService {
  import opened Wrappers
  import opened Exceptions
  import opened PrismaModels
  import opened Http
  import opened Jwt
  import TimeUtil
  import Users = UsersService

  const AUTH_COOKIE: string := "Authentication"
  const COOKIE_PATH: string := "/api"

  /** `JWT_EXPIRES_IN` as the configuration service returns it (undefined when unset). */
  datatype AuthConfig = AuthConfig(jwtExpiresIn: Option<string>)

  datatype LoginResponse = LoginResponse(user: User, accessToken: string)

  /**
   * The registration body as it reaches `register`: email, password and the optional profile
   * fields.  No validation pipe is installed, so a `role` sent in the body is passed on too.
   */
  datatype RegisterDto = RegisterDto(
    email: string,
    password: string,
    fullName: Option<string>,
    dateOfBirth: Option<string>,
    role: Option<UserRole>)

  /** httpOnly, sameSite strict, scoped to the API prefix; `expires` only when setting. */
  function SessionCookieOptions(expires: Option<int>): CookieOptions {
    CookieOptions(true, Strict, COOKIE_PATH, expires)
  }

  /**
   * The cookie's expiry: now plus the configured duration, in milliseconds.  An unset duration
   * fails the way `undefined.match(...)` does; a malformed one fails with the parser's error.
   */
  function CookieExpiry(config: AuthConfig, nowMs: int): (r: Result<int, Exception>)
    ensures config.jwtExpiresIn.None? ==> r == Err(TypeError)
    ensures config.jwtExpiresIn.Some? ==>
              (r.Ok? <==> TimeUtil.MatchesDuration(config.jwtExpiresIn.value)) &&
              (r.Err? ==> r == Err(Unauthorized("Invalid duration format")))
    ensures r.Ok? ==> (r.value >= nowMs &&
                       r.value == nowMs + 1000 * TimeUtil.ParseDurationToSeconds(config.jwtExpiresIn.value).value)
  {
    match config.jwtExpiresIn
    case None => Err(TypeError)
    case Some(duration) =>
      match TimeUtil.ParseDurationToSeconds(duration)
      case Err(e) => Err(e)
      case Ok(seconds) => Ok(nowMs + seconds * 1000)
  }

  /**
   * `login`: signs `{ userId }`, writes the token into the session cookie and returns it with
   * the user.  A bad duration fails before anything is signed or written.
   */
  method Login(user: User, config: AuthConfig, jwt: JwtService, nowMs: int, response: HttpResponse)
    returns (r: Result<LoginResponse, Exception>)
    modifies response
    ensures response.status == old(response.status) && response.body == old(response.body)
    ensures CookieExpiry(config, nowMs).Err? ==>
              r == Err(CookieExpiry(config, nowMs).error) && response.cookieWrites == old(response.cookieWrites)
    ensures CookieExpiry(config, nowMs).Ok? ==>
              && r == Ok(LoginResponse(user, jwt.sign(TokenPayload(user.id))))
              && response.cookieWrites == old(response.cookieWrites) +
                   [SetCookie(AUTH_COOKIE, r.value.accessToken, SessionCookieOptions(Some(CookieExpiry(config, nowMs).value)))]
  {
    var payload := TokenPayload(user.id);
    var expires := CookieExpiry(config, nowMs);
    if expires.Err? {
      return Err(expires.error);
    }
    var accessToken := jwt.sign(payload);
    response.cookieWrites := response.cookieWrites +
      [SetCookie(AUTH_COOKIE, accessToken, SessionCookieOptions(Some(expires.value)))];
    r := Ok(LoginResponse(user, accessToken));
  }

  /** `logout`: clears the session cookie with the same flags and path, whatever came before. */
  method Logout(response: HttpResponse)
    modifies response
    ensures response.status == old(response.status) && response.body == old(response.body)
    ensures response.cookieWrites == old(response.cookieWrites) + [ClearCookie(AUTH_COOKIE, SessionCookieOptions(None))]
  {
    response.cookieWrites := response.cookieWrites + [ClearCookie(AUTH_COOKIE, SessionCookieOptions(None))];
  }

  /**
   * `register`: the user table's `create` with the body as given, its result unchanged; no
   * token, no cookie.
   */
  method Register(users: Users.UsersService, dto: RegisterDto, newId: string, hasher: Users.Hasher)
    returns (r: Result<User, Exception>)
    requires users.Valid()
    modifies users
    ensures users.Valid()
    ensures Users.EmailTaken(old(users.users), dto.email) ==>
              r == Err(Conflict("Email already exists")) && users.users == old(users.users)
    ensures !Users.EmailTaken(old(users.users), dto.email) && newId in old(users.users) ==>
              r == Err(Conflict("Email already exists")) && users.users == old(users.users)
    ensures !Users.EmailTaken(old(users.users), dto.email) && newId !in old(users.users) ==>
              && r.Ok?
              && r.value.id == newId && r.value.email == dto.email
              && r.value.password == hasher.hash(dto.password)
              && r.value.fullName == dto.fullName && r.value.dateOfBirth == dto.dateOfBirth
              && r.value.role == dto.role.GetOr(DEFAULT_ROLE)
              && users.users == old(users.users)[newId := r.value]
  {
    r := users.Create(Users.CreateUserDto(dto.email, dto.password, dto.fullName, dto.dateOfBirth, dto.role), newId, hasher);
  }

  /** `validateUser`: the user whose id the verified token carries; errors pass through. */
  function ValidateUser(jwt: JwtService, authentication: string, nowMs: int, users: map<string, User>)
    : (r: Result<User, Exception>)
    ensures Verify(jwt, authentication, nowMs).Err? ==> r == Err(Verify(jwt, authentication, nowMs).error)
    ensures Verify(jwt, authentication, nowMs).Ok? ==>
              var id := Verify(jwt, authentication, nowMs).value.userId;
              (r.Ok? <==> id in users) &&
              (r.Ok? ==> r.value == users[id]) &&
              (r.Err? ==> r.error == NotFound("User with ID " + id + " not found"))
  {
    match Verify(jwt, authentication, nowMs)
    case Err(e) => Err(e)
    case Ok(payload) => Users.FindOne(users, payload.userId)
  }

  /**
   * The token a login issues resolves back to the logged-in user while it is unexpired, given a
   * signer whose tokens decode to what was signed.
   */
  lemma LoginTokenResolvesUser(user: User, jwt: JwtService, nowMs: int, users: map<string, User>, exp: Option<int>)
    requires user.id in users && users[user.id] == user
    requires jwt.decode(jwt.sign(TokenPayload(user.id))) == Some(Claims(TokenPayload(user.id), exp))
    requires exp.Some? ==> NowSeconds(nowMs) < exp.value
    ensures ValidateUser(jwt, jwt.sign(TokenPayload(user.id)), nowMs, users) == Ok(user)
  {
  }

  /** With `JWT_EXPIRES_IN` = "1h" the cookie expires an hour after login. */
  lemma OneHourCookie(nowMs: int)
    ensures CookieExpiry(AuthConfig(Some("1h")), nowMs) == Ok(nowMs + 3600000)
  {
    TimeUtil.DigitsThenUnit("1", 'h');
    assert "1"[..0] == "" && TimeUtil.DigitsValue("1") == 1;
    assert "1" + ['h'] == "1h";
  }
}
