/**
 * `UsersService`: the user table behind registration and login.  Prisma becomes a map from id to
 * record; bcrypt becomes the oracle functions of a Hasher value.
 */
module UsersService {
  import opened Wrappers
  import opened Exceptions
  import opened PrismaModels
  import opened JsValue

  /** bcrypt: `hash(plaintext)` with the service's salt rounds, `compare(plaintext, hash)`. */
  datatype Hasher = Hasher(hash: string -> string, compare: (string, string) -> bool)

  const SALT_ROUNDS: nat := 10

  /** The creation data; an absent role falls back to `DEFAULT_ROLE`. */
  datatype CreateUserDto = CreateUserDto(
    email: string,
    password: string,
    fullName: Option<string>,
    dateOfBirth: Option<string>,
    role: Option<UserRole>)

  /**
   * `Partial<User>` as handed to `update`: each present field is written as given, the id
   * included.
   */
  datatype UserPatch = UserPatch(
    id: Option<string>,
    email: Option<string>,
    password: Option<string>,
    fullName: Option<string>,
    dateOfBirth: Option<string>,
    role: Option<UserRole>)

  function NotFoundMessage(id: string): string {
    "User with ID " + id + " not found"
  }

  predicate EmailTaken(users: map<string, User>, email: string) {
    exists id :: id in users && users[id].email == email
  }

  /** `findAll`: every stored user. */
  function FindAll(users: map<string, User>): (r: set<User>)
    ensures forall u :: u in r <==> exists id :: id in users && users[id] == u
  {
    users.Values
  }

  /** `findOne`: the user stored under `id`, or NotFound. */
  function FindOne(users: map<string, User>, id: string): (r: Result<User, Exception>)
    ensures r.Ok? <==> id in users
    ensures r.Ok? ==> r.value == users[id]
    ensures r.Err? ==> r.error == NotFound("User with ID " + id + " not found")
  {
    if id in users then Ok(users[id]) else Err(NotFound(NotFoundMessage(id)))
  }

  /** `findByEmail`: the one user with that email (the email index is unique), or null. */
  function FindByEmail(users: map<string, User>, email: string): (r: Option<User>)
    requires UniqueEmails(users)
    ensures r.Some? <==> EmailTaken(users, email)
    ensures r.Some? ==> r.value.email == email && exists id :: id in users && users[id] == r.value
  {
    if EmailTaken(users, email) then
      var id :| id in users && users[id].email == email;
      Some(users[id])
    else None
  }

  /**
   * `validateUser`: the user with that email when the password matches its stored hash; null for
   * an unknown email and for a wrong password alike.
   */
  function ValidateUser(users: map<string, User>, email: string, password: string, hasher: Hasher): (r: Option<User>)
    requires UniqueEmails(users)
    ensures r.Some? <==> exists id :: id in users && users[id].email == email && hasher.compare(password, users[id].password)
    ensures r.Some? ==> r.value.email == email && exists id :: id in users && users[id] == r.value
  {
    match FindByEmail(users, email)
    case None => None
    case Some(user) => if hasher.compare(password, user.password) then Some(user) else None
  }

  /**
   * `validateUser` called with whatever a request body held.  A non-string email fails the
   * store's query validation; a non-string password makes bcrypt reject its arguments, which it
   * only gets to once a user with that email exists.
   */
  function ValidateUserValue(users: map<string, User>, email: Value, password: Value, hasher: Hasher)
    : (r: Result<Option<User>, Exception>)
    requires UniqueEmails(users)
    ensures !email.Str? ==> r == Err(StoreValidationError)
    ensures email.Str? && password.Str? ==> r == Ok(ValidateUser(users, email.s, password.s, hasher))
    ensures email.Str? && !password.Str? ==>
              r == (if EmailTaken(users, email.s)
                    then Err(PlainError("Illegal arguments: " + TypeOf(password) + ", string"))
                    else Ok(None))
  {
    if !email.Str? then Err(StoreValidationError)
    else match FindByEmail(users, email.s)
      case None => Ok(None)
      case Some(user) =>
        if !password.Str? then Err(PlainError("Illegal arguments: " + TypeOf(password) + ", string"))
        else Ok(if hasher.compare(password.s, user.password) then Some(user) else None)
  }

  /** `prisma.user.create`: a clash on the id or on the unique email is error P2002. */
  function StoreCreate(users: map<string, User>, user: User): (r: Result<map<string, User>, Exception>)
    ensures r.Ok? <==> user.id !in users && !EmailTaken(users, user.email)
    ensures r.Err? ==> r.error == StoreError("P2002")
    ensures r.Ok? ==> user.id in r.value && r.value[user.id] == user && r.value - {user.id} == users
    ensures r.Ok? && UniqueEmails(users) ==> UniqueEmails(r.value)
  {
    if user.id in users || EmailTaken(users, user.email) then Err(StoreError("P2002"))
    else Ok(users[user.id := user])
  }

  /** The fields a patch names are replaced, the id among them; the others are kept. */
  function ApplyPatch(user: User, patch: UserPatch): (r: User)
    ensures r.id == patch.id.GetOr(user.id)
    ensures r.email == patch.email.GetOr(user.email)
    ensures r.password == patch.password.GetOr(user.password)
    ensures r.fullName == (if patch.fullName.Some? then patch.fullName else user.fullName)
    ensures r.dateOfBirth == (if patch.dateOfBirth.Some? then patch.dateOfBirth else user.dateOfBirth)
    ensures r.role == patch.role.GetOr(user.role)
  {
    User(patch.id.GetOr(user.id),
         patch.email.GetOr(user.email),
         patch.password.GetOr(user.password),
         if patch.fullName.Some? then patch.fullName else user.fullName,
         if patch.dateOfBirth.Some? then patch.dateOfBirth else user.dateOfBirth,
         patch.role.GetOr(user.role))
  }

  /** Another user than `id` already has `email`. */
  predicate EmailTakenByOther(users: map<string, User>, id: string, email: string) {
    exists other :: other in users && other != id && users[other].email == email
  }

  /** The patch would give the record an id or an email another record already has. */
  predicate PatchClashes(users: map<string, User>, id: string, patch: UserPatch) {
    || (patch.id.Some? && patch.id.value != id && patch.id.value in users)
    || (patch.email.Some? && EmailTakenByOther(users, id, patch.email.value))
  }

  /**
   * `prisma.user.update` on the record under `id`: a missing record is error P2025, a clash on
   * the id or on the unique email is P2002; otherwise the patched record replaces the old one,
   * under its new id when the patch names one.
   */
  function StoreUpdate(users: map<string, User>, id: string, patch: UserPatch): (r: Result<map<string, User>, Exception>)
    ensures id !in users ==> r == Err(StoreError("P2025"))
    ensures id in users ==> (r.Err? <==> PatchClashes(users, id, patch))
    ensures r.Err? && id in users ==> r.error == StoreError("P2002")
    ensures r.Ok? ==> id in users && r.value == (users - {id})[ApplyPatch(users[id], patch).id := ApplyPatch(users[id], patch)]
    ensures r.Ok? && UsersKeyed(users) ==> UsersKeyed(r.value)
    ensures r.Ok? && UniqueEmails(users) ==> UniqueEmails(r.value)
  {
    if id !in users then Err(StoreError("P2025"))
    else if PatchClashes(users, id, patch) then Err(StoreError("P2002"))
    else
      var updated := ApplyPatch(users[id], patch);
      Ok((users - {id})[updated.id := updated])
  }

  /**
   * The error handling of `create`: a ConflictException is rethrown, a Prisma unique violation
   * (P2002) becomes a ConflictException, anything else is rethrown unchanged.
   */
  function CreateError(e: Exception): (r: Exception)
    ensures e == StoreError("P2002") ==> r == Conflict("Email already exists")
    ensures e != StoreError("P2002") ==> r == e
  {
    if e.HttpException? && e.kind == ConflictKind then e
    else if e.StoreError? && e.code == "P2002" then Conflict("Email already exists")
    else e
  }

  class UsersService {
    var users: map<string, User>

    ghost predicate Valid()
      reads this
    {
      UsersKeyed(users) && UniqueEmails(users)
    }

    constructor ()
      ensures Valid() && users == map[]
    {
      users := map[];
    }

    /**
     * `create`: refuses an email already present, then stores the user with the bcrypt hash of
     * the password in place of the plaintext under the id the store assigns (`newId`).
     */
    method Create(dto: CreateUserDto, newId: string, hasher: Hasher) returns (r: Result<User, Exception>)
      requires Valid()
      modifies this
      ensures Valid()
      ensures EmailTaken(old(users), dto.email) ==> r == Err(Conflict("Email already exists")) && users == old(users)
      ensures !EmailTaken(old(users), dto.email) && newId in old(users) ==>
                r == Err(Conflict("Email already exists")) && users == old(users)
      ensures !EmailTaken(old(users), dto.email) && newId !in old(users) ==>
                && r.Ok?
                && r.value.id == newId && r.value.email == dto.email
                && r.value.password == hasher.hash(dto.password)
                && r.value.fullName == dto.fullName && r.value.dateOfBirth == dto.dateOfBirth
                && r.value.role == dto.role.GetOr(DEFAULT_ROLE)
                && users == old(users)[newId := r.value]
    {
      var outcome: Result<User, Exception>;
      var existing := FindByEmail(users, dto.email);
      if existing.Some? {
        outcome := Err(Conflict("Email already exists"));
      } else {
        var hashed := hasher.hash(dto.password);
        var record := User(newId, dto.email, hashed, dto.fullName, dto.dateOfBirth, dto.role.GetOr(DEFAULT_ROLE));
        match StoreCreate(users, record)
        case Ok(table) =>
          users := table;
          outcome := Ok(record);
        case Err(e) =>
          outcome := Err(e);
      }
      r := if outcome.Err? then Err(CreateError(outcome.error)) else outcome;
    }

    /**
     * `update`: writes the fields the patch names.  The store reports a missing id as P2025 and
     * an id or email taken by another user as P2002; neither is translated.
     */
    method Update(id: string, patch: UserPatch) returns (r: Result<User, Exception>)
      requires Valid()
      modifies this
      ensures Valid()
      ensures id !in old(users) ==> r == Err(StoreError("P2025")) && users == old(users)
      ensures id in old(users) && PatchClashes(old(users), id, patch) ==>
                r == Err(StoreError("P2002")) && users == old(users)
      ensures id in old(users) && !PatchClashes(old(users), id, patch) ==>
                && r == Ok(ApplyPatch(old(users)[id], patch))
                && users == (old(users) - {id})[r.value.id := r.value]
    {
      match StoreUpdate(users, id, patch)
      case Err(e) =>
        r := Err(e);
      case Ok(table) =>
        r := Ok(ApplyPatch(users[id], patch));
        users := table;
    }

    /** `remove`: deletes the record; any failure of the delete becomes NotFound. */
    method Remove(id: string) returns (r: Result<(), Exception>)
      requires Valid()
      modifies this
      ensures Valid()
      ensures id in old(users) ==> r == Ok(()) && users == old(users) - {id}
      ensures id !in old(users) ==> r == Err(NotFound("User with ID " + id + " not found")) && users == old(users)
    {
      if id in users {
        users := users - {id};
        r := Ok(());
      } else {
        r := Err(NotFound(NotFoundMessage(id)));
      }
    }
  }

  /** Creating a user and then looking up its email finds that user (the round trip of create). */
  lemma CreatedUserIsFound(users: map<string, User>, user: User)
    requires UsersKeyed(users) && UniqueEmails(users)
    requires StoreCreate(users, user).Ok?
    ensures UniqueEmails(StoreCreate(users, user).value)
    ensures FindByEmail(StoreCreate(users, user).value, user.email) == Some(user)
    ensures FindOne(StoreCreate(users, user).value, user.id) == Ok(user)
  {
    var t := StoreCreate(users, user).value;
    assert t[user.id].email == user.email;
  }

  /**
   * A patch naming a fresh id moves the record: the old id is no longer found, and the new one
   * finds the patched record.
   */
  lemma RekeyedUserMoves(users: map<string, User>, id: string, patch: UserPatch, newId: string)
    requires UsersKeyed(users)
    requires patch.id == Some(newId) && newId != id
    requires StoreUpdate(users, id, patch).Ok?
    ensures FindOne(StoreUpdate(users, id, patch).value, id) == Err(NotFound("User with ID " + id + " not found"))
    ensures FindOne(StoreUpdate(users, id, patch).value, newId) == Ok(ApplyPatch(users[id], patch))
  {
  }

  /** A wrong password and an unknown email give the same answer. */
  lemma ValidateUserHidesCause(users: map<string, User>, known: string, unknown: string, password: string, hasher: Hasher)
    requires UniqueEmails(users)
    requires !EmailTaken(users, unknown)
    requires FindByEmail(users, known).Some? && !hasher.compare(password, FindByEmail(users, known).value.password)
    ensures ValidateUser(users, known, password, hasher) == ValidateUser(users, unknown, password, hasher) == None
  {
  }
}
