/**
  The entities, request and response records, and the exceptions of the user
  service, together with the two collaborators whose behaviour is not visible
  (the password encoder and the token service), which are passed in as values.
*/
module Domain {
  import opened Wrappers
  import opened Text

  /** A permission grant (`model.Role`): the role table's key and its name. */
  datatype Role = Role(id: int, name: string)

  /** A stored user account (`model.User`); `passwordHash` is the `password_hash` column. */
  datatype User = User(
    id: int,
    name: string,
    email: string,
    passwordHash: string,
    dateBirth: string,
    roles: seq<Role>)

  /** A user's profile (`model.Profile`); `userId` is the owning user's id. */
  datatype Profile = Profile(
    id: int,
    displayName: string,
    preferredLanguage: string,
    avatarUrl: string,
    bio: string,
    userId: int)

  /**
    `dto.UserRequest`: the body of register and update; `roles` holds role ids.
    Bean validation has already rejected a null name, e-mail, password or birth date.
  */
  datatype UserRequest = UserRequest(
    name: string,
    email: string,
    password: string,
    dateBirth: string,
    roles: Option<seq<int>>,
    preferredLanguage: Option<string>)

  /** `dto.ProfileRequest`. */
  datatype ProfileRequest = ProfileRequest(
    displayName: string,
    preferredLanguage: string,
    avatarUrl: string,
    bio: string)

  /** `dto.ProfileResponse`, as `ProfileMapper.toResponse` fills it. */
  datatype ProfileResponse = ProfileResponse(
    profileId: int,
    displayName: string,
    preferredLanguage: string,
    avatarUrl: string,
    bio: string)

  /** `dto.UserResponse`, as `UserMapper.toResponse` fills it: roles by name. */
  datatype UserResponse = UserResponse(
    userId: int,
    name: string,
    email: string,
    dateBirth: string,
    roles: seq<string>,
    profile: Option<ProfileResponse>)

  /** `dto.UserAuth`: the login projection of a user joined with its role names and profile. */
  datatype UserAuth = UserAuth(
    id: int,
    userName: string,
    email: string,
    dateBirth: string,
    passwordHash: string,
    roles: seq<string>,
    profile: Option<Profile>)

  /** Spring's `UserDetails` as `CustomUserDetailsService` builds it. */
  datatype UserDetails = UserDetails(
    username: string,
    password: string,
    authorities: set<string>,
    accountNonExpired: bool,
    accountNonLocked: bool,
    credentialsNonExpired: bool,
    enabled: bool)

  /** The `Authentication` held by the security context: its name and its authorities. */
  datatype Authentication = Authentication(
    name: string,
    authenticated: bool,
    authorities: set<string>)

  /** `dto.AuthResponse`, the body of a successful login. */
  datatype AuthResponse = AuthResponse(
    token: string,
    tokenType: string,
    expiresIn: int,
    userId: int,
    userName: string,
    email: string,
    dateBirth: string,
    roles: seq<string>,
    profile: Option<Profile>)

  /** One `FieldError` of a failed bean validation. */
  datatype FieldError = FieldError(field: string, defaultMessage: string)

  /** The exceptions the core throws or handles, by Java class. */
  datatype Exception =
    | IllegalState(message: string)                 // java.lang.IllegalStateException
    | EntityNotFound(message: string)               // jakarta.persistence.EntityNotFoundException
    | IllegalArgument(message: string)              // java.lang.IllegalArgumentException
    | Security(message: string)                     // java.lang.SecurityException
    | UsernameNotFound(message: string)             // Spring's UsernameNotFoundException
    | DataIntegrityViolation(message: string)       // a unique constraint of the database
    | MethodArgumentNotValid(fieldErrors: seq<FieldError>)
    | HttpRequestMethodNotSupported(httpMethod: string)
    | NoResourceFound
    | MissingServletRequestParameter(parameterName: string)
    | HttpMediaTypeNotSupported(contentType: string)
    | MethodArgumentTypeMismatch(parameter: string, requiredType: string)
    | HttpMessageNotReadable(message: string)
    | NamingAuthentication(message: string)         // javax.naming.AuthenticationException
    | TokenFailure(message: string)                 // whatever the token service throws

  /** A value stored under the token's extra claims. */
  datatype Claim = AuthorityNames(names: set<string>) | Number(n: int)

  /** The password encoder: a one-way `encode` and its check `matches(raw, hash)`. */
  datatype PasswordEncoder = PasswordEncoder(
    encode: string -> string,
    matches: (string, string) -> bool)

  /**
    The token service: subject extraction (which may return null or throw),
    validation against user details (which may throw), issuance over extra
    claims, and the configured expiration time.
  */
  datatype JwtService = JwtService(
    extractUsername: string -> Result<Option<string>, Exception>,
    isTokenValid: (string, UserDetails) -> Result<bool, Exception>,
    generateToken: (map<string, Claim>, UserDetails) -> string,
    expirationTime: int)

  /** A JSON value in a response body. */
  datatype Value = Text(text: string) | Fields(fields: map<string, string>)

  /** The body a controller hands back. */
  datatype Body =
    | NoBody
    | Json(json: map<string, Value>)
    | UserBody(user: UserResponse)
    | ProfileBody(profile: ProfileResponse)
    | AuthBody(auth: AuthResponse)

  /** A `ResponseEntity`: status, optional `Location` header and body. */
  datatype Response = Response(status: int, location: Option<string>, body: Body)

  const HTTP_OK := 200
  const HTTP_CREATED := 201
  const HTTP_NO_CONTENT := 204
  const HTTP_BAD_REQUEST := 400
  const HTTP_UNAUTHORIZED := 401
  const HTTP_FORBIDDEN := 403
  const HTTP_NOT_FOUND := 404
  const HTTP_METHOD_NOT_ALLOWED := 405
  const HTTP_CONFLICT := 409

  /** The `{timestamp, code, message}` error map built by the handlers' `error` helpers. */
  function ErrorBody(code: string, message: string, now: string): (m: map<string, Value>)
    ensures m.Keys == {"timestamp", "code", "message"}
    ensures m["code"] == Text(code) && m["message"] == Text(message) && m["timestamp"] == Text(now)
  {
    map["timestamp" := Text(now), "code" := Text(code), "message" := Text(message)]
  }

  /**
    The 403 of a denied owner-or-admin check (the controllers'
    `buildErrorResponse` under `FORBIDDEN`).
  */
  function Forbidden(message: string, now: string): (r: Response)
    ensures r.status == HTTP_FORBIDDEN && r.location.None? && r.body.Json?
    ensures r.body.json.Keys == {"timestamp", "code", "message"}
    ensures r.body.json["code"] == Text("FORBIDDEN") && r.body.json["message"] == Text(message)
  {
    Response(HTTP_FORBIDDEN, None, Json(ErrorBody("FORBIDDEN", message, now)))
  }

  /** The 204 of a `void` service call that returned, or what it threw. */
  function NoContent(s: Outcome<Exception>): (r: Result<Response, Exception>)
    ensures s.Fail? ==> r == Err(s.error)
    ensures s.Pass? ==> r == Ok(Response(HTTP_NO_CONTENT, None, NoBody))
  {
    match s
    case Fail(e) => Err(e)
    case Pass => Ok(Response(HTTP_NO_CONTENT, None, NoBody))
  }

  /** "non-null and non-blank", the test both service operations apply to optional text. */
  predicate HasText(s: Option<string>) {
    s.Some? && !IsBlank(s.value)
  }

  /** Lookups the repositories answer. */
  function FindUserByEmail(users: seq<User>, email: string): Option<User> {
    First(users, (u: User) => u.email == email)
  }

  function FindUserById(users: seq<User>, id: int): Option<User> {
    First(users, (u: User) => u.id == id)
  }

  function FindRole(roles: seq<Role>, id: int): Option<Role> {
    First(roles, (r: Role) => r.id == id)
  }

  function FindProfile(profiles: seq<Profile>, id: int): Option<Profile> {
    First(profiles, (p: Profile) => p.id == id)
  }

  function FindProfileOfUser(profiles: seq<Profile>, userId: int): Option<Profile> {
    First(profiles, (p: Profile) => p.userId == userId)
  }

  /** The users table's unique columns: no two rows share an id or an e-mail address. */
  predicate UniqueUsers(users: seq<User>) {
    forall i, j :: 0 <= i < j < |users| ==> users[i].id != users[j].id && users[i].email != users[j].email
  }

  /** With unique columns, a stored user is the one found both by its id and by its e-mail. */
  lemma StoredUserIsFound(users: seq<User>, u: User)
    requires UniqueUsers(users) && u in users
    ensures FindUserById(users, u.id) == Some(u)
    ensures FindUserByEmail(users, u.email) == Some(u)
  {
    var k :| 0 <= k < |users| && users[k] == u;
    FirstAt(users, k, (v: User) => v.id == u.id);
    FirstAt(users, k, (v: User) => v.email == u.email);
  }

  /** `ProfileMapper.toResponse`. */
  function ProfileToResponse(p: Profile): ProfileResponse {
    ProfileResponse(p.id, p.displayName, p.preferredLanguage, p.avatarUrl, p.bio)
  }

  /** The names of a list of roles, in order. */
  function RoleNames(roles: seq<Role>): (names: seq<string>)
    ensures |names| == |roles|
    ensures forall i :: 0 <= i < |roles| ==> names[i] == roles[i].name
  {
    if roles == [] then [] else [roles[0].name] + RoleNames(roles[1..])
  }

  /** `UserMapper.toResponse`: the user's fields, its role names and its profile, if any. */
  function UserToResponse(u: User, profile: Option<Profile>): UserResponse {
    UserResponse(u.id, u.name, u.email, u.dateBirth, RoleNames(u.roles),
                 if profile.Some? then Some(ProfileToResponse(profile.value)) else None)
  }
}
