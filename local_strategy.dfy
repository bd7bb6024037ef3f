/**
 * `LocalStrategy`: the Passport email-and-password strategy.  Passport reads the two fields
 * from the request body; `validate` asks the user table and hides every failure of that call
 * behind one generic message.
 */
module LocalStrategy {
  import opened Wrappers
  import opened JsValue
  import opened Exceptions
  import opened PrismaModels
  import Users = UsersService
  import LocalGuard = LocalAuthGuard

  const USERNAME_FIELD: string := "email"
  const PASSWORD_FIELD: string := "password"
  const INVALID_CREDENTIALS: string := "Invalid email or password"

  /**
   * How Passport's local strategy reads a credential field from the body: a missing property, or
   * one whose value is an object (null, an array, a nested object or a date), reads as null.
   */
  function Lookup(body: Value, field: string): (v: Value)
    ensures v == Null || v == Field(body, field)
    ensures v == Field(body, field) <==>
              Field(body, field).Null? || (!Field(body, field).Undefined? && TypeOf(Field(body, field)) != "object")
    ensures Truthy(v) <==> Truthy(Field(body, field)) && TypeOf(Field(body, field)) != "object"
  {
    var v := Field(body, field);
    if v.Undefined? || TypeOf(v) == "object" then Null else v
  }

  /**
   * `validate`, given how `validateUser` ended: its user (or null) when it returned, the generic
   * 401 whatever it threw.
   */
  function Validate(outcome: Result<Option<User>, Exception>): (r: Result<Option<User>, Exception>)
    ensures outcome.Ok? ==> r == outcome
    ensures outcome.Err? ==> r == Err(Unauthorized(INVALID_CREDENTIALS))
  {
    match outcome
    case Ok(user) => Ok(user)
    case Err(_) => Err(Unauthorized(INVALID_CREDENTIALS))
  }

  /**
   * The strategy as the Passport guard runs it.  A field that reads as falsy is Passport's
   * "missing credentials" failure and a null user is a failure too, both a bare 401; what
   * `validate` throws is rethrown.
   */
  function Authenticate(body: Value, users: map<string, User>, hasher: Users.Hasher): (r: Result<User, Exception>)
    requires UniqueEmails(users)
    ensures !Truthy(Lookup(body, USERNAME_FIELD)) || !Truthy(Lookup(body, PASSWORD_FIELD)) ==> r == Err(UnauthorizedDefault())
    ensures r.Err? ==> r.error == UnauthorizedDefault() || r.error == Unauthorized(INVALID_CREDENTIALS)
    ensures r.Ok? <==> && Field(body, USERNAME_FIELD).Str? && Field(body, PASSWORD_FIELD).Str?
                       && Field(body, USERNAME_FIELD).s != "" && Field(body, PASSWORD_FIELD).s != ""
                       && Users.ValidateUser(users, Field(body, USERNAME_FIELD).s, Field(body, PASSWORD_FIELD).s, hasher).Some?
    ensures r.Ok? ==> r.value.email == Field(body, USERNAME_FIELD).s && exists id :: id in users && users[id] == r.value
  {
    var email := Lookup(body, USERNAME_FIELD);
    var password := Lookup(body, PASSWORD_FIELD);
    if !Truthy(email) || !Truthy(password) then Err(UnauthorizedDefault())
    else
      match Validate(Users.ValidateUserValue(users, email, password, hasher))
      case Err(e) => Err(e)
      case Ok(None) => Err(UnauthorizedDefault())
      case Ok(Some(user)) => Ok(user)
  }

  /** An object where a credential belongs counts as a missing credential: the bare 401. */
  lemma ObjectCredentialIsMissing(users: map<string, User>, hasher: Users.Hasher, fields: map<string, Value>, password: string)
    requires UniqueEmails(users)
    ensures var body := Obj(map[USERNAME_FIELD := Obj(fields), PASSWORD_FIELD := Str(password)]);
            Authenticate(body, users, hasher) == Err(UnauthorizedDefault())
  {
    var body := Obj(map[USERNAME_FIELD := Obj(fields), PASSWORD_FIELD := Str(password)]);
    assert Field(body, USERNAME_FIELD) == Obj(fields);
  }

  /**
   * The strategy never leaks why a login failed, while the hand-written login guard lets a
   * non-string password for a registered email escape as a plain error (a 500).
   */
  lemma StrategyHidesWhatGuardLeaks(users: map<string, User>, hasher: Users.Hasher, email: string, password: int)
    requires UniqueEmails(users) && Users.EmailTaken(users, email) && email != "" && password != 0
    ensures var body := Obj(map[USERNAME_FIELD := Str(email), PASSWORD_FIELD := Num(password)]);
            && Authenticate(body, users, hasher) == Err(Unauthorized(INVALID_CREDENTIALS))
            && LocalGuard.LocalAuthenticate(body, users, hasher) == Err(PlainError("Illegal arguments: number, string"))
  {
    var body := Obj(map[USERNAME_FIELD := Str(email), PASSWORD_FIELD := Num(password)]);
    assert Field(body, USERNAME_FIELD) == Str(email);
    assert Field(body, PASSWORD_FIELD) == Num(password);
    assert "Illegal arguments: " + TypeOf(Num(password)) + ", string" == "Illegal arguments: number, string";
  }
}
