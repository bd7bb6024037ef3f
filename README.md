# Verified model of the volta-generators CMS backend decision logic

This project is a Dafny model of the decision logic in a NestJS content-management backend. The backend serves users, site sections and key/value settings for a marketing site. The model covers:

- **Authentication gate.** This covers the `<digits><d|h|m|s>` duration parser and login (the signed `{ userId }` payload and the `Authentication` session cookie with its expiry). It also covers logout, registration, and the JWT guard's token choice: a case-sensitive `Bearer ` header first, then the cookie, or the RPC payload. The guard then verifies the token with expiry enforced, resolves the user and attaches it. Finally it covers the Passport JWT strategy (cookie first, then header), the local login guard and the Passport local strategy.
- **Authorization.** The role/permission guard: OR over required roles, AND over required permissions, and handler metadata overriding class metadata.
- **Tables.** Users, site sections and settings are maps keyed by id, with unique email and title. Each table is a class whose methods change the map and keep its invariant. The model states the NotFound and Conflict paths, the referential check on a setting's section title, and that nothing else changes.
- **Responses.** The success and error envelopes, the wrap-unless-already-wrapped interceptor and the two catch-all exception filters.
- **Uploads and CORS.** The image-name filter, the stored-file-name builder (with Node's `path.extname` on POSIX paths), the upload records, and the CORS origin decision over a comma-split allow-list.

Foreign pieces are parameters:

- JWT signing and signature checking (RFC 7519) are the oracle functions of a `JwtService` value. The expiry rule (`exp` in seconds, a token is expired once the clock reaches it) is modelled.
- bcrypt is the `hash` and `compare` oracles of a `Hasher` value.
- Prisma is an in-memory map. An id the store would generate is passed in as `newId`, and a clash on a unique column is the store's error code `P2002`.
- The clock is a millisecond reading or an ISO-8601 string passed in. The uuid is a parameter.
- JavaScript values (handler results, exception bodies, request bodies) are the `JsValue.Value` datatype, with JavaScript truthiness and property reads.

Behaviour of the code worth noting, all of it modelled as written:

- The JWT guard never looks at the `@Public()` marker: a public route still needs a token.
- A malformed `JWT_EXPIRES_IN` makes login fail with an Unauthorized "Invalid duration format".
- `AuthService.validateUser` lets the JWT library's errors and the user table's NotFound through untranslated.
- The store's `P2025` (missing record on `users.update`) and `P2002` (title clash on site sections) reach the caller untranslated.
- The local login guard lets a non-string password for a registered email escape as bcrypt's plain error, not Unauthorized.
- The role guard answers `false` on a denied route. It reads `user.roles` and `user.permissions`, which stored users do not have, and only inside its `some`/`every` callbacks, so a missing user throws only when a required list is non-empty.
- Two catch-all filters are registered, each with its own envelope.
- Registration passes the request body to the user table as it is: no validation pipe is installed, so a `role` in the body is stored.
- No cookie parser is installed by the bootstrap code, so `request.cookies` is absent. The JWT guard's `request.cookies?.Authentication` then reads as undefined. The Passport JWT strategy's `request?.cookies['Authentication']` would throw a TypeError (`JwtStrategy.NoCookieJarRejectsBearer`).
- The Passport strategies `JwtStrategy` and `LocalStrategy` are registered by the auth module, but no route runs them. Every route uses the custom `JwtAuthGuard` or `LocalAuthGuard`, never `AuthGuard('jwt')` or `AuthGuard('local')`. They are modelled as what they would do if a route used them, so their TypeErrors and 401s are not reachable in the application as written. Likewise `createCorsConfig` is never applied, because the bootstrap code does not enable CORS.
- The users update hands its `Partial<User>` argument to the store as it is, so a patch naming `id` re-keys the record (`UsersService.RekeyedUserMoves`).

## Model

| member | source | states |
|---|---|---|
| TimeUtil.ParseDurationToSeconds | src/common/utils/time.util.ts:13-34 | Fails with Unauthorized "Invalid duration format" exactly when the input is not one or more decimal digits followed by a single d/h/m/s; otherwise returns the base-10 value of the digits times the unit's length in seconds |
| TimeUtil.ScaleByUnit | src/common/utils/time.util.ts:22-33 | Succeeds exactly for the units d, h, m and s, giving the value times that unit's seconds; any other unit is Unauthorized "Invalid duration unit" |
| TimeUtil.DigitsThenUnit | src/common/utils/time.util.ts:14-30 | Any non-empty digit string followed by a unit letter parses to its value times that unit |
| TimeUtil.UnitScales | src/common/utils/time.util.ts:22-30 | "<n>d", "<n>h", "<n>m", "<n>s" give n·86400, n·3600, n·60 and n seconds, for every n |
| TimeUtil.LeadingZeros | src/common/utils/time.util.ts:19-20 | Leading zeros do not change the value read |
| TimeUtil.DefaultUnreachable | src/common/utils/time.util.ts:31-32 | No input ever produces the "Invalid duration unit" error of the default branch |
| TimeUtil.Monotone | src/common/utils/time.util.ts:19-30 | For a fixed unit the result never decreases as the number grows |
| TimeUtil.RejectedExamples | src/common/utils/time.util.ts:14-17 | "", "5x", "1h30m", "1.5h", " 1h" and "h" are refused |
| TimeUtil.Examples | src/common/utils/time.util.ts:19-30 | "2d" is 172800, "30m" is 1800 and "007s" is 7 |
| Jwt.Verify | src/modules/auth/guards/jwt-auth.guard.ts:37 | Succeeds exactly when the token decodes and, if it carries `exp`, the clock in whole seconds is before it; a bad token is JsonWebTokenError and an expired one TokenExpiredError |
| Jwt.ExpiredStaysExpired | src/modules/auth/strategies/jwt.strategy.ts:34 | Once a token has expired, every later clock reading refuses it |
| AuthService.CookieExpiry | src/modules/auth/auth.service.ts:29-33 | An unset duration fails with TypeError, a malformed one with the parser's error; otherwise the expiry is now plus the parsed seconds, in milliseconds, never before now |
| AuthService.Login | src/modules/auth/auth.service.ts:24-48 | On a bad duration nothing is signed or written; otherwise exactly one `Authentication` cookie (httpOnly, sameSite strict, path /api, the computed expiry) holding the signature of `{ userId: user.id }` is appended, and the same token is returned with the given user |
| AuthService.Logout | src/modules/auth/auth.service.ts:50-56 | Appends exactly one clearing of `Authentication` with the same flags and path, whatever was written before |
| AuthService.Register | src/modules/auth/auth.service.ts:20-22 | The user table's create on the body as given: Conflict with the table unchanged on a taken email or id clash; otherwise exactly one record under the new id, with the body's email, name and birth date, the hashed password, and the body's role or else the default |
| AuthService.ValidateUser | src/modules/auth/auth.service.ts:58-61 | Verification errors pass through unchanged; a verified payload resolves to the stored user with its `userId`, or NotFound |
| AuthService.LoginTokenResolvesUser | src/modules/auth/auth.service.ts:24-61 | The token login issues resolves back to the logged-in user while unexpired, for a signer whose tokens decode to what was signed |
| AuthService.OneHourCookie | src/modules/auth/auth.service.ts:29-33 | With "1h" configured the cookie expires 3600000 ms after login |
| Strings.FirstNonEmpty | src/modules/auth/strategies/jwt.strategy.ts:21-32 | Returns the first candidate that is present and non-empty, and nothing exactly when every candidate is absent or empty |
| Strings.FirstOfTwo | src/modules/auth/guards/jwt-auth.guard.ts:61-70 | With two sources, the first wins when present and non-empty, else the second when it is |
| JwtAuthGuard.BearerToken | src/modules/auth/guards/jwt-auth.guard.ts:62-64 | Present exactly when the header starts with the case-sensitive "Bearer "; the header is that prefix followed by the token |
| JwtAuthGuard.CookieToken | src/modules/auth/guards/jwt-auth.guard.ts:68-70 | Present exactly when parsed cookies exist and hold `Authentication`, and is its value |
| JwtAuthGuard.ExpectedToken | src/modules/auth/guards/jwt-auth.guard.ts:53-78 | For HTTP, a non-empty bearer token wins even when a cookie exists, otherwise the non-empty cookie; for RPC, `data.Authentication` whatever truthy value it holds, a non-string one included; any other context, and no token at all, fails with Unauthorized "No authentication token provided" |
| JwtAuthGuard.ValidateToken | src/modules/auth/guards/jwt-auth.guard.ts:35-51 | Succeeds exactly when the token is a string that verifies and its user is stored, giving that user; a non-string token and every other failure is the bare Unauthorized |
| JwtAuthGuard.Authenticate | src/modules/auth/guards/jwt-auth.guard.ts:27-51 | Fails closed with a 401 Unauthorized, the no-token message before any verification; a success is a stored user |
| JwtAuthGuard.AddUser | src/modules/auth/guards/jwt-auth.guard.ts:80-86 | Sets `user` on the HTTP request or on the RPC payload |
| JwtAuthGuard.CanActivate | src/modules/auth/guards/jwt-auth.guard.ts:27-33 | Returns true with the resolved user attached exactly when authentication succeeds; on failure returns the guard's error and leaves `user` as it was |
| JwtAuthGuard.PublicRouteStillNeedsToken | src/modules/auth/guards/jwt-auth.guard.ts:27-33 | A route marked public with no token in the request is still refused |
| JwtAuthGuard.DeletedUserRejected | src/modules/auth/guards/jwt-auth.guard.ts:35-51 | A valid token naming a user no longer stored is refused with Unauthorized |
| JwtAuthGuard.NonStringRpcTokenRejected | src/modules/auth/guards/jwt-auth.guard.ts:35-57 | A truthy non-string RPC `Authentication` passes the no-token check and is then refused with the bare Unauthorized |
| JwtAuthGuard.LowercaseBearerFallsBackToCookie | src/modules/auth/guards/jwt-auth.guard.ts:63-70 | "bearer abc" is not a bearer header, so the cookie's token is used |
| UsersService.ValidateUserValue | src/modules/users/users.service.ts:105-113 | With a non-string email the store rejects the query; with a non-string password bcrypt throws once the email is known, else null; with strings it is `validateUser` |
| LocalAuthGuard.LocalAuthenticate | src/modules/auth/guards/jwt-auth.guard.ts:96-104 | A missing body throws TypeError; succeeds exactly when email and password are strings that `validateUser` accepts, giving that stored user; an unknown email or wrong password is the bare Unauthorized |
| LocalAuthGuard.CanActivate | src/modules/auth/guards/jwt-auth.guard.ts:96-107 | Returns true with `request.user` set to the validated user, or the failure with `request.user` unchanged |
| JwtStrategy.CookieExtractor | src/modules/auth/strategies/jwt.strategy.ts:23-29 | Throws TypeError when there are no parsed cookies; gives the `Authentication` cookie when it is non-empty, null otherwise |
| JwtStrategy.ExtractToken | src/modules/auth/strategies/jwt.strategy.ts:21-32 | A non-empty cookie token wins; otherwise the header extractor's non-empty token, else none |
| JwtStrategy.Validate | src/modules/auth/strategies/jwt.strategy.ts:44-57 | Gives the stored user with the payload's `userId`; a lookup failure becomes Unauthorized "Invalid token" |
| JwtStrategy.Authenticate | src/modules/auth/strategies/jwt.strategy.ts:20-57 | Succeeds exactly when a token is extracted, verifies with expiry enforced and names a stored user; without parsed cookies every request fails with TypeError |
| JwtStrategy.NoCookieJarRejectsBearer | src/modules/auth/strategies/jwt.strategy.ts:24 | Without parsed cookies a bearer token the guard would accept is refused by the strategy |
| JwtStrategy.OppositePrecedence | src/modules/auth/strategies/jwt.strategy.ts:21-32 | With both a cookie and a bearer token, the strategy takes the cookie and the guard takes the header |
| LocalStrategy.Validate | src/modules/auth/strategies/local.strategy.ts:19-27 | A returned result, null included, passes through unchanged; any thrown error becomes Unauthorized "Invalid email or password" |
| LocalStrategy.Lookup | src/modules/auth/strategies/local.strategy.ts:9-11 | A credential field reads as its value, or as null when missing or object-valued (null, array, object, date); it is truthy exactly when the value is truthy and not an object |
| LocalStrategy.Authenticate | src/modules/auth/strategies/local.strategy.ts:9-27 | Reads `email` and `password`; a field that reads as falsy, or a null user, is the bare Unauthorized; succeeds exactly for non-empty string credentials `validateUser` accepts; no other error escapes |
| LocalStrategy.ObjectCredentialIsMissing | src/modules/auth/strategies/local.strategy.ts:9-11 | An object sent as the email is a missing credential: the bare 401, not "Invalid email or password" |
| LocalStrategy.StrategyHidesWhatGuardLeaks | src/modules/auth/strategies/local.strategy.ts:23-26 | For a known email with a numeric password the strategy answers the generic 401 while the login guard throws bcrypt's plain error |
| RolesGuard.PrincipalOf | src/common/guards/roles.guard.ts:31-36 | A stored user has neither a `roles` nor a `permissions` array |
| RolesGuard.GetAllAndOverride | src/common/guards/roles.guard.ts:13-21 | The handler's entry when present, else the controller's |
| RolesGuard.AnyIncluded | src/common/guards/roles.guard.ts:30-32 | True exactly when the user has a role array containing some required role |
| RolesGuard.AllIncluded | src/common/guards/roles.guard.ts:35-37 | True exactly when nothing is required, or the user has a permission array containing every required permission |
| RolesGuard.CanActivate | src/common/guards/roles.guard.ts:11-40 | Allows when no metadata applies; with metadata and no user it throws TypeError exactly when a required list is non-empty, and otherwise allows exactly when no role list applies; with a user it allows exactly when (no role list or some listed role held) and (no permission list or every listed permission held) |
| RolesGuard.AnonymousEmptyPermissionsAllowed | src/common/guards/roles.guard.ts:35-37 | With no user, a route requiring only an empty permission list is open |
| RolesGuard.AnonymousEmptyRolesDenied | src/common/guards/roles.guard.ts:30-32 | With no user, a route requiring an empty role list (and no non-empty permission list) is closed without throwing |
| RolesGuard.EmptyRoleListDeniesAll | src/common/guards/roles.guard.ts:30-32 | An empty required-role list denies every user |
| RolesGuard.EmptyPermissionListAllows | src/common/guards/roles.guard.ts:35-37 | An empty required-permission list (and no roles) allows every user |
| RolesGuard.HandlerOverridesController | src/common/guards/roles.guard.ts:13-21 | When the handler sets both lists, the controller's metadata has no effect |
| RolesGuard.StoredUserDenied | src/common/guards/roles.guard.ts:27-39 | A stored user passes no route that requires roles or a non-empty permission list |
| RolesGuard.MorePrivilegesKeepAccess | src/common/guards/roles.guard.ts:30-39 | Granting more roles and permissions never removes access |
| UsersService.FindAll | src/modules/users/users.service.ts:14-16 | Exactly the stored users |
| UsersService.FindOne | src/modules/users/users.service.ts:18-28 | The user stored under the id, or NotFound "User with ID <id> not found" |
| UsersService.FindByEmail | src/modules/users/users.service.ts:99-103 | The stored user with that email, or null exactly when none has it |
| UsersService.ValidateUser | src/modules/users/users.service.ts:105-113 | The user with that email when the password matches its stored hash; null for an unknown email and for a wrong password |
| UsersService.ApplyPatch | src/modules/users/users.service.ts:76-80 | The fields the patch names are replaced, the id among them; all others are kept |
| UsersService.StoreUpdate | src/modules/users/users.service.ts:77-80 | A missing record is P2025; an id or email another record has is P2002, exactly when the patch names one; otherwise the old entry is replaced by the patched record under its (possibly new) id, and the table stays keyed by id with unique emails |
| UsersService.CreateError | src/modules/users/users.service.ts:56-73 | P2002 becomes Conflict "Email already exists"; any other error is rethrown unchanged |
| UsersService.StoreCreate | src/modules/users/users.service.ts:50-55 | The store's insert succeeds exactly when neither the id nor the email is taken, adds just that record and keeps emails unique; otherwise P2002 |
| UsersService.UsersService.Create | src/modules/users/users.service.ts:37-74 | A taken email or id clash is Conflict with the table unchanged; otherwise exactly one record is added, carrying the hash of the password, the given fields and the default role when none is given |
| UsersService.UsersService.Update | src/modules/users/users.service.ts:76-87 | A missing id is P2025 and an id or email another user has is P2002, both with no write; otherwise the record under `id` is replaced by the patched one, under the patch's id when it names one |
| UsersService.UsersService.Remove | src/modules/users/users.service.ts:89-97 | An existing record is deleted and nothing else changes; a missing one is NotFound with no change |
| UsersService.CreatedUserIsFound | src/modules/users/users.service.ts:37-55 | After a successful insert, emails stay unique and the user is found by its email and by its id |
| UsersService.RekeyedUserMoves | src/modules/users/users.service.ts:76-80 | A patch naming a fresh id moves the record: the old id is NotFound, and the new id finds the patched record |
| UsersService.ValidateUserHidesCause | src/modules/users/users.service.ts:105-113 | A wrong password and an unknown email give the same null |
| SiteSectionsService.FindAll | src/modules/site-sections/site-sections.service.ts:26-32 | Exactly the stored sections |
| SiteSectionsService.FindOne | src/modules/site-sections/site-sections.service.ts:40-53 | The section stored under the id, or NotFound "Site section with ID <id> not found" |
| SiteSectionsService.FindByTitle | src/modules/settings/settings.service.ts:18-20 | The stored section with that title, present exactly when one has it |
| SiteSectionsService.ApplyPatch | src/modules/site-sections/site-sections.service.ts:62-69 | The fields the patch names are replaced, the id kept |
| SiteSectionsService.SiteSectionsService.Create | src/modules/site-sections/site-sections.service.ts:16-20 | Inserts exactly the given title and description under the new id, or P2002 with no change on an id or title clash |
| SiteSectionsService.SiteSectionsService.Update | src/modules/site-sections/site-sections.service.ts:62-69 | A missing id is NotFound with no write; a title held by another section is P2002; otherwise only that record changes, to the patched one |
| SiteSectionsService.SiteSectionsService.Remove | src/modules/site-sections/site-sections.service.ts:77-83 | A missing id is NotFound and deletes nothing; otherwise the record is removed and returned |
| SettingsService.FindAll | src/modules/settings/settings.service.ts:38-44 | Exactly the stored settings |
| SettingsService.FindOne | src/modules/settings/settings.service.ts:52-65 | The setting stored under the id, or NotFound "Setting with ID <id> not found" |
| SettingsService.FindBySection | src/modules/settings/settings.service.ts:115-124 | Exactly the stored settings whose `sectionTitle` is the argument |
| SettingsService.ApplyPatch | src/modules/settings/settings.service.ts:90-93 | The fields the patch names are replaced; id and `sectionId` are kept |
| SettingsService.SettingsService.Create | src/modules/settings/settings.service.ts:16-32 | An unknown section title is NotFound and creates nothing; an id clash is P2002; otherwise the record stores the given fields with `sectionId` naming the section with that title |
| SettingsService.SettingsService.Update | src/modules/settings/settings.service.ts:74-94 | A missing id is NotFound before anything else; a non-empty unknown new title is NotFound with no write; otherwise the patched record replaces the old one and `sectionId` is unchanged |
| SettingsService.SettingsService.Remove | src/modules/settings/settings.service.ts:102-108 | A missing id is NotFound; otherwise the record is deleted and returned |
| SettingsService.RetitleKeepsOldSection | src/modules/settings/settings.service.ts:78-93 | Moving a setting to another existing section's title leaves its `sectionId` on the old section |
| ApiResponse.Success | src/common/utils/api-response.util.ts:15-29 | An object with exactly success, statusCode, message, path, timestamp and data; success is true; data, status, message and path copied; the timestamp is the clock reading; no `errors` |
| ApiResponse.Error | src/common/utils/api-response.util.ts:38-52 | An object with exactly success, statusCode, message, path, timestamp and errors; success is false; message, path, status and errors copied; the timestamp is the clock reading; no `data` |
| TransformResponse.Transform | src/common/interceptors/transform-response.interceptor.ts:14-30 | A value with a defined `success` is returned unchanged; anything else, null included, becomes the success envelope of that data with "Operation successful", the URL and 200 |
| TransformResponse.Intercept | src/common/interceptors/transform-response.interceptor.ts:9-33 | Returns the transformed body and writes as the status exactly that body's `statusCode` |
| TransformResponse.TransformIdempotent | src/common/interceptors/transform-response.interceptor.ts:16-29 | Transforming twice equals transforming once |
| TransformResponse.BuiltEnvelopesPassThrough | src/common/interceptors/transform-response.interceptor.ts:16-20 | An envelope a controller built with either helper is sent unchanged, with the status it carries |
| TransformResponse.LookalikeNotWrapped | src/common/interceptors/transform-response.interceptor.ts:16-20 | `{ success: false }` from a handler is passed through with an undefined status |
| GlobalExceptionFilter.MapHttpStatus | src/common/filters/global-exception.filter.ts:50-65 | Identity on 200, 201, 400, 401, 403, 404, 409, 500, 503 and 504; every other status becomes 500 |
| GlobalExceptionFilter.Select | src/common/filters/global-exception.filter.ts:22-33 | A non-HTTP exception gives 500 with "An unexpected error occurred."; an HTTP one the mapped status, its response's `message` when truthy (else the default) and its response's `errors` |
| GlobalExceptionFilter.Catch | src/common/filters/global-exception.filter.ts:17-48 | Writes the selected status and the error envelope for the request URL |
| GlobalExceptionFilter.BodyAgreesWithStatus | src/common/filters/global-exception.filter.ts:40-47 | The envelope's `statusCode` equals the status written, which is a known status; its message is the selected, truthy one and its path the request URL |
| GlobalExceptionFilter.NotFoundKeepsMessage | src/common/filters/global-exception.filter.ts:26-32 | A NotFound keeps 404 and its message |
| GlobalExceptionFilter.StringBodyLosesText | src/common/filters/global-exception.filter.ts:30-31 | A string-bodied HttpException gets the generic message |
| HttpExceptionFilter.Status | src/common/filters/http-exception.filter.ts:20-23 | An HTTP exception's own status, anything else 500 |
| HttpExceptionFilter.ErrorBody | src/common/filters/http-exception.filter.ts:25-36 | An object with exactly success false, the status, the exception's message (or "Internal server error"), the request URL as path and the ISO clock reading as timestamp; never `errors` |
| HttpExceptionFilter.Catch | src/common/filters/http-exception.filter.ts:15-37 | Writes that status and that body |
| HttpExceptionFilter.FiltersDisagreeOn422 | src/common/filters/http-exception.filter.ts:20-23 | A 422 stays 422 here and becomes 500 in the global filter |
| HttpExceptionFilter.FiltersAgreeOnKnownStatuses | src/common/filters/http-exception.filter.ts:20-23 | On every status the application names, the two filters write the same status |
| FileFilter.ImageFileFilter | src/common/filters/file.filter.ts:3-8 | Accepts exactly names ending in ".jpg", ".jpeg", ".png", ".webp" or ".ico", with no error; otherwise BadRequest "Only image files are allowed!" and false |
| FileFilter.UpperCaseRejected | src/common/filters/file.filter.ts:4 | "A.JPG" is rejected |
| FileFilter.TrailingExtensionRejected | src/common/filters/file.filter.ts:4 | "a.jpg.exe" is rejected |
| FileFilter.EndingInImageAccepted | src/common/filters/file.filter.ts:4-7 | Any name ending in an image extension is accepted, whatever precedes it |
| FileFilter.DoubleExtensionAccepted | src/common/filters/file.filter.ts:4 | "a.exe.png" is accepted |
| NodePath.ExtName | src/common/helpers/file-upload.helper.ts:42 | Empty, or a proper suffix of the last path segment that is a dot followed by no further dot or slash |
| NodePath.ExtNameOfLastDot | src/common/helpers/file-upload.helper.ts:42 | For a non-empty slash-free stem, dots allowed, followed by a dot and a dot-free tail, the extension is exactly that dot and tail (".." excepted) |
| NodePath.DoubleExtensionExample | src/common/helpers/file-upload.helper.ts:42 | "a.exe.png" has extension ".png" |
| Strings.ReplaceAll | src/common/helpers/file-upload.helper.ts:39 | Same length, with every ':' replaced by '-' and every other character kept |
| FileUploadHelper.DatePart | src/common/helpers/file-upload.helper.ts:34 | The longest prefix of the reading without a 'T' |
| FileUploadHelper.DatePartOf | src/common/helpers/file-upload.helper.ts:34 | For a reading `<date>T<rest>`, the date |
| FileUploadHelper.TimePart | src/common/helpers/file-upload.helper.ts:35-39 | The time part has no '.' and no ':' |
| FileUploadHelper.TimePartOf | src/common/helpers/file-upload.helper.ts:35-39 | For a reading `<date>T<clock>.<fraction>`, the clock with every ':' turned into '-' |
| FileUploadHelper.StoredFilename | src/common/helpers/file-upload.helper.ts:33-44 | Requires a 'T' in the second clock reading; the name starts with the first reading's date and "-" and ends with "-", the uuid and the original name's extension; its full value is given by `StoredFilenameOfIso` |
| FileUploadHelper.StoredFilenameOfIso | src/common/helpers/file-upload.helper.ts:33-43 | The stored name is the first reading's date, "-", the second reading's clock with ':' turned into '-', "-", the uuid, then the original name's extension |
| FileUploadHelper.MidnightMixesDays | src/common/helpers/file-upload.helper.ts:34-39 | Readings either side of midnight give the old day's date with the new day's "00-00-00" |
| FileUploadHelper.StoredFilenameExample | src/common/helpers/file-upload.helper.ts:33-43 | "a.png" uploaded at 2024-05-01T10:20:30.123Z is stored as "2024-05-01-10-20-30-<uuid>.png" |
| FileUploadHelper.StoredFilenameKeepsExtension | src/common/helpers/file-upload.helper.ts:33-43 | The stored name's extension is the original name's extension |
| FileUploadHelper.BareExtensionStoredWithoutExtension | src/common/helpers/file-upload.helper.ts:42-43 | A name like ".png" passes the image filter yet is stored with no extension |
| FileUploadHelper.ImageExtensionHasNoExtName | src/common/helpers/file-upload.helper.ts:42 | Each image extension taken as a whole name has no extension to `extname` |
| FileUploadHelper.UploadSingle | src/common/helpers/file-upload.helper.ts:52-75 | A missing file or a missing or empty filename fails with 500 "Error uploading file"; otherwise the record copies the file's fields with path destination + "/" + filename |
| FileUploadHelper.UploadEach | src/common/helpers/file-upload.helper.ts:82-87 | One record per file in input order when every file succeeds |
| FileUploadHelper.UploadMultiple | src/common/helpers/file-upload.helper.ts:77-94 | One record per file in input order; if any file fails, or the list is missing, 500 "Error uploading files" |
| FileUploadHelper.OneBadFileFailsBatch | src/common/helpers/file-upload.helper.ts:77-94 | A single file without a stored name fails the whole batch |
| Strings.SplitJoin | src/config/cors.config.ts:12-14 | Splitting a comma-join of comma-free entries gives back the entries |
| Strings.JoinSplit | src/config/cors.config.ts:26-28 | Re-joining the pieces of a split gives back the string |
| CorsConfig.AllowedOrigins | src/config/cors.config.ts:12-14 | `CORS_ORIGINS` (or the default) split on ',', at least one comma-free entry |
| CorsConfig.MethodList | src/config/cors.config.ts:26-28 | `CORS_METHODS` (or the default) split on ','; joining the list gives the configured string back |
| CorsConfig.OriginDecision | src/config/cors.config.ts:11-21 | Allows exactly when the origin is absent or empty, the list has "*", or the list has the origin verbatim; otherwise Error "Not allowed by CORS" |
| CorsConfig.OriginAllowed | src/config/cors.config.ts:5-21 | The wildcard allows everything; an allow-list allows what the decision allows |
| CorsConfig.CreateCorsConfig | src/config/cors.config.ts:4-43 | Wildcard exactly in development, else the allow-list; the method list; credentials as configured (a string) or true; preflightContinue false, optionsSuccessStatus 204, maxAge 3600, the fixed header lists |
| CorsConfig.ConfiguredListIsExact | src/config/cors.config.ts:12-17 | With a configured list without "*", a non-empty origin passes exactly when it is one of the entries |
| CorsConfig.SpaceAfterCommaBreaksEntry | src/config/cors.config.ts:12-17 | Entries are not trimmed: after "a, b" the origin "b" is refused |
| CorsConfig.DevelopmentAllowsAll | src/config/cors.config.ts:5-9 | In development every origin passes |
| CorsConfig.DefaultOriginsAreLocalhost | src/config/cors.config.ts:12-14 | Without `CORS_ORIGINS` the list is http://localhost:3000 and http://localhost:3001 |

## Left out

- JWT signing and signature checking, bcrypt hashing and comparison, and `ExtractJwt.fromAuthHeaderAsBearerToken` are oracle parameters. Their cryptography and header parsing are not specified.
- NestJS plumbing (`handleRequest`, rxjs `from`/`map`, Promises) is reduced to sequential calls. A guard's `false` becoming a 403 is the framework's and is not modelled.
- Which of the two globally registered exception filters handles an exception is decided by the framework and is not modelled. Each filter is modelled on its own.
- Prisma `include` relations, ordering of `findMany` results (the model returns sets), and error codes other than P2002 and P2025 are not modelled.
- The dead `if (!user)` after `prisma.user.update` is not modelled.
- SettingsService.ApplyPatch: takes the body to hold only `UpdateSettingDto`'s fields. With no validation pipe, a body naming other columns (`id`, `sectionId`) is written by the store as given: such a body can move a setting to another section without the title check, which `RetitleKeepsOldSection` does not cover. Such bodies are not modelled.
- SiteSectionsService.ApplyPatch: takes the body to hold only `UpdateSiteSectionDto`'s fields. A body naming `id`, which no validation pipe strips, re-keys the section in the store. This is not modelled.
- UsersService.ApplyPatch: models the `Partial<User>` columns of this model (id, email, password, names, birth date, role). Columns of the schema that are not part of this model are not modelled.
- Deleting a section that settings still reference depends on the schema's foreign-key rule, which is not part of this model. `SiteSectionsService.Remove` deletes the section only.
- The `password` in a users update patch is stored as given, without hashing, as the code does. DTO validation (class-validator) is not modelled.
- The role a new user gets when none is given is the schema default, taken to be `user`. The schema is not part of this model.
- Controllers, seeders, Swagger metadata, logging, `main.ts`, the module files, `multer.config.ts` and the Joi schema in `env.validation.ts` are not modelled. `CorsConfig` reads the configuration as given: the Joi defaults (for example `NODE_ENV` defaulting to development) are not applied.
- Whether the `cors` package emits the credentials header for the string `CORS_CREDENTIALS` is outside the model. `CreateCorsConfig` only states the value passed on.
- `FileUploadHelper.getFileValidationPipe` is not modelled. It has no caller: the settings routes install only the image-name filter. Its `ALLOWED_FILE_TYPES` pattern is matched by NestJS's file-type validator against the upload's MIME type, not its name, and that validator is framework code. Multer's enforcement of `MAX_FILE_SIZE` is not modelled either.
- Creating the upload directory and reading the clock and uuid are not modelled. The clock reading and the uuid are parameters.
- `StoredFilename` requires a time reading containing 'T', as `toISOString` always produces.
- AuthService.CookieExpiry: adds the parsed seconds to the clock in milliseconds. The code's `setSeconds` works in local time, so across a daylight-saving change "1d" can be 23 or 25 hours. An expiry beyond the Date range of ±8.64e15 ms is an invalid Date, and writing the cookie then throws after the token is signed. Neither case is modelled.
- Numbers are unbounded integers. JavaScript's 2^53 precision limit and non-integer values are not modelled, for example in `CookieExpiry`.
- Serialisation drops undefined properties (`errors: undefined`) and turns dates into strings. The model keeps the object as built.
- A `null` exception response and array-valued validation messages are only modelled as generic `Value`s.
- `NodePath.ExtName` follows Node's POSIX `path.extname`. Windows paths are not modelled.
- The roles guard on RPC contexts is not modelled. Its `switchToHttp().getRequest()` is taken to be the HTTP request.
- The Passport local strategy's fallback to query-string fields is not modelled. Only the request body is read. passport-local is not part of this model; `LocalStrategy.Lookup` restates how it reads a field (undefined and object values read as null).
