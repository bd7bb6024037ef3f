/**
 * `createCorsConfig`: the CORS options built from the configuration.  In development any origin
 * is allowed; otherwise an origin is checked against the comma-separated allow-list on each
 * request.  `env` is what the configuration service returns, key by key.
 */
module CorsConfig {
  import opened Wrappers
  import opened JsValue
  import opened Exceptions
  import opened Strings

  const DEFAULT_ORIGINS: string := "http://localhost:3000,http://localhost:3001"
  const DEFAULT_METHODS: string := "GET,HEAD,PUT,PATCH,POST,DELETE,OPTIONS"
  const CORS_REJECTION: string := "Not allowed by CORS"
  const ALLOWED_HEADERS: seq<string> := ["Accept", "Authorization", "Content-Type", "X-Requested-With", "Range", "Origin"]
  const EXPOSED_HEADERS: seq<string> := ["Content-Range", "X-Content-Range"]

  /** The `origin` option: the wildcard, or the per-request decision over an allow-list. */
  datatype OriginPolicy = AnyOrigin | AllowList(allowed: seq<string>)

  datatype CorsOptions = CorsOptions(
    origin: OriginPolicy,
    methods: seq<string>,
    credentials: Value,
    preflightContinue: bool,
    optionsSuccessStatus: int,
    allowedHeaders: seq<string>,
    exposedHeaders: seq<string>,
    maxAge: int)

  /** `configService.get(key, fallback)`: the configured value when there is one. */
  function ConfigGet(env: map<string, string>, key: string, fallback: string): string {
    if key in env then env[key] else fallback
  }

  function AllowedOrigins(env: map<string, string>): (r: seq<string>)
    ensures |r| >= 1 && forall i :: 0 <= i < |r| ==> ',' !in r[i]
  {
    Split(ConfigGet(env, "CORS_ORIGINS", DEFAULT_ORIGINS), ',')
  }

  /** The `methods` option: the configured list split at its commas, each piece kept verbatim. */
  function MethodList(env: map<string, string>): (r: seq<string>)
    ensures |r| >= 1 && forall i :: 0 <= i < |r| ==> ',' !in r[i]
    ensures Join(r, ',') == ConfigGet(env, "CORS_METHODS", DEFAULT_METHODS)
  {
    var methods := ConfigGet(env, "CORS_METHODS", DEFAULT_METHODS);
    JoinSplit(methods, ',');
    Split(methods, ',')
  }

  /**
   * The origin callback: `callback(null, true)` or `callback(new Error(...))`.  A request
   * without an Origin header (or with an empty one) is always let through.
   */
  function OriginDecision(allowed: seq<string>, origin: Option<string>): (r: Result<bool, Exception>)
    ensures r.Ok? <==> origin.None? || origin.value == "" || "*" in allowed || origin.value in allowed
    ensures r.Ok? ==> r.value
    ensures r.Err? ==> r.error == PlainError(CORS_REJECTION)
  {
    if origin.None? || origin.value == "" || "*" in allowed || origin.value in allowed then Ok(true)
    else Err(PlainError(CORS_REJECTION))
  }

  /** Whether a request from `origin` passes the configured policy. */
  function OriginAllowed(options: CorsOptions, origin: Option<string>): (r: bool)
    ensures options.origin.AnyOrigin? ==> r
    ensures options.origin.AllowList? ==> (r <==> OriginDecision(options.origin.allowed, origin).Ok?)
  {
    match options.origin
    case AnyOrigin => true
    case AllowList(allowed) => OriginDecision(allowed, origin).Ok?
  }

  function CreateCorsConfig(env: map<string, string>): (r: CorsOptions)
    ensures ("NODE_ENV" in env && env["NODE_ENV"] == "development") <==> r.origin.AnyOrigin?
    ensures r.origin.AllowList? ==> r.origin.allowed == AllowedOrigins(env)
    ensures r.methods == MethodList(env)
    ensures r.credentials == (if "CORS_CREDENTIALS" in env then Str(env["CORS_CREDENTIALS"]) else Bool(true))
    ensures !r.preflightContinue && r.optionsSuccessStatus == 204 && r.maxAge == 3600
    ensures r.allowedHeaders == ALLOWED_HEADERS && r.exposedHeaders == EXPOSED_HEADERS
  {
    var isDevEnvironment := "NODE_ENV" in env && env["NODE_ENV"] == "development";
    var origin := if isDevEnvironment then AnyOrigin else AllowList(AllowedOrigins(env));
    CorsOptions(
      origin,
      MethodList(env),
      if "CORS_CREDENTIALS" in env then Str(env["CORS_CREDENTIALS"]) else Bool(true),
      false,
      204,
      ALLOWED_HEADERS,
      EXPOSED_HEADERS,
      3600)
  }

  /**
   * Outside development, with `CORS_ORIGINS` set to comma-joined origins (none of them "*"), a
   * request's non-empty origin passes exactly when it is one of them, character for character.
   */
  lemma ConfiguredListIsExact(env: map<string, string>, origins: seq<string>, origin: string)
    requires |origins| >= 1 && forall i :: 0 <= i < |origins| ==> ',' !in origins[i]
    requires "*" !in origins && origin != ""
    requires "CORS_ORIGINS" in env && env["CORS_ORIGINS"] == Join(origins, ',')
    requires !("NODE_ENV" in env && env["NODE_ENV"] == "development")
    ensures OriginAllowed(CreateCorsConfig(env), Some(origin)) <==> origin in origins
  {
    SplitJoin(origins, ',');
  }

  /** No trimming: a space after a comma becomes part of the next origin. */
  lemma SpaceAfterCommaBreaksEntry(env: map<string, string>, first: string, second: string)
    requires first != "" && second != "" && first != second && first != "*"
    requires ',' !in first && ',' !in second && ' ' !in second
    requires "CORS_ORIGINS" in env && env["CORS_ORIGINS"] == Join([first, " " + second], ',')
    requires !("NODE_ENV" in env && env["NODE_ENV"] == "development")
    ensures !OriginAllowed(CreateCorsConfig(env), Some(second))
  {
    assert ' ' in " " + second && ' ' !in second;
    assert "*" != " " + second by { assert |"*"| == 1 && (|" " + second| == 1 ==> false); }
    assert ',' !in " " + second by { assert forall c :: c in " " + second ==> c == ' ' || c in second; }
    ConfiguredListIsExact(env, [first, " " + second], second);
  }

  /** In development every origin passes, configured list or not. */
  lemma DevelopmentAllowsAll(env: map<string, string>, origin: Option<string>)
    requires "NODE_ENV" in env && env["NODE_ENV"] == "development"
    ensures OriginAllowed(CreateCorsConfig(env), origin)
  {
  }

  /** Without `CORS_ORIGINS` the allow-list is the two local development origins. */
  lemma DefaultOriginsAreLocalhost(env: map<string, string>)
    requires "CORS_ORIGINS" !in env
    ensures AllowedOrigins(env) == ["http://localhost:3000", "http://localhost:3001"]
  {
    var a := "http://localhost:3000";
    var b := "http://localhost:3001";
    assert ',' !in a && ',' !in b;
    assert [a, b][1..] == [b];
    assert Join([a, b], ',') == a + [','] + b;
    assert a + [','] + b == DEFAULT_ORIGINS;
    SplitJoin([a, b], ',');
  }
}
