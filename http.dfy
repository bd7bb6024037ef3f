/**
 * The framework objects the core reads and writes: the Express request and response, the RPC
 * payload, route metadata set by decorators, and NestJS's execution context.
 */
module Http {
  import opened Wrappers
  import opened JsValue
  import opened PrismaModels

  datatype SameSite = Strict | Lax | NoSameSite

  /** Cookie options; `expires` is in milliseconds since the epoch. */
  datatype CookieOptions = CookieOptions(httpOnly: bool, sameSite: SameSite, path: string, expires: Option<int>)

  /** One `Set-Cookie` written by `response.cookie(...)` or `response.clearCookie(...)`. */
  datatype CookieWrite =
    | SetCookie(name: string, value: string, options: CookieOptions)
    | ClearCookie(name: string, options: CookieOptions)

  /** An Express response, as far as the core writes it. */
  class HttpResponse {
    /** The value last passed to `response.status(...)`. */
    var status: Value
    /** The value passed to `response.json(...)`, once one has been. */
    var body: Option<Value>
    /** The cookies written, in order. */
    var cookieWrites: seq<CookieWrite>

    constructor ()
      ensures status == Num(200) && body == None && cookieWrites == []
    {
      status := Num(200);
      body := None;
      cookieWrites := [];
    }
  }

  /**
   * An Express request.  `cookies` is absent when no cookie parser is installed, which is the
   * case for this application.
   */
  class HttpRequest {
    const url: string
    /** `request.headers.authorization`. */
    const authorization: Option<string>
    /** `request.cookies`. */
    const cookies: Option<map<string, string>>
    /** `request.body`. */
    const body: Value
    /** `request.user`, written by the authentication guards. */
    var user: Option<User>

    constructor (url: string, authorization: Option<string>, cookies: Option<map<string, string>>, body: Value)
      ensures this.url == url && this.authorization == authorization
      ensures this.cookies == cookies && this.body == body && user == None
    {
      this.url := url;
      this.authorization := authorization;
      this.cookies := cookies;
      this.body := body;
      user := None;
    }
  }

  /** The payload of an RPC call. */
  class RpcData {
    /** `data.Authentication`, whatever the caller sent (undefined when absent). */
    const authentication: Value
    /** `data.user`, written by the authentication guard. */
    var user: Option<User>

    constructor (authentication: Value)
      ensures this.authentication == authentication && user == None
    {
      this.authentication := authentication;
      user := None;
    }
  }

  /**
   * Metadata that decorators attach to a handler or a controller class: `isPublic` from
   * `@Public()`, the role list from `@Roles(...)`, the permission list from `@Permissions(...)`.
   * An absent entry is `undefined` to the reflector.
   */
  datatype RouteMetadata = RouteMetadata(
    isPublic: Option<bool>,
    roles: Option<seq<string>>,
    permissions: Option<seq<string>>)

  /** `context.getType()` with the objects `switchToHttp()` / `switchToRpc()` give access to. */
  datatype ExecutionContext =
    | HttpContext(request: HttpRequest, handler: RouteMetadata, controller: RouteMetadata)
    | RpcContext(data: RpcData, handler: RouteMetadata, controller: RouteMetadata)
    /** "ws" or "graphql": the guards read nothing from these. */
    | OtherContext(kind: string)
}
