/**
  `UserController`: registration, the owner-or-admin guarded account
  operations, login with token issuance, and the two read endpoints. A
  controller call either returns a response or throws; `ExceptionHandler`
  turns what it throws into a response.
*/
module UserController {
  import opened Wrappers
  import opened Text
  import opened Domain
  import opened Store
  import AuthenticationService
  import UserDetailsService
  import UserService
  import ExceptionHandler

  const USERS_PATH := "/api/v1/users/"
  const UPDATE_FORBIDDEN := "No tienes permiso para actualizar esta cuenta"
  const DELETE_FORBIDDEN := "No tienes permiso para eliminar esta cuenta"
  const VIEW_FORBIDDEN := "No tienes permiso para ver esta información"
  const BEARER := "Bearer"

  /** The `Location` of a created user. */
  function UserLocation(userId: int): string {
    USERS_PATH + IntToString(userId)
  }

  /** Two users with different ids are never given the same `Location`. */
  lemma UserLocationsDistinct(a: int, b: int)
    requires a != b
    ensures UserLocation(a) != UserLocation(b)
  {
    if UserLocation(a) == UserLocation(b) {
      assert IntToString(a) == UserLocation(a)[|USERS_PATH|..];
      IntToStringInjective(a, b);
    }
  }

  /** The response `create` answers for the service's outcome: 201 with the new user's `Location`. */
  function CreatedResponse(s: Result<UserResponse, Exception>): (r: Result<Response, Exception>)
    ensures s.Err? ==> r == Err(s.error)
    ensures s.Ok? ==>
      r.Ok? && r.value.status == HTTP_CREATED && r.value.body == UserBody(s.value)
      && r.value.location == Some(UserLocation(s.value.userId))
  {
    match s
    case Err(e) => Err(e)
    case Ok(created) => Ok(Response(HTTP_CREATED, Some(UserLocation(created.userId)), UserBody(created)))
  }

  /** `create` (POST /register): the service's registration, answered with 201 and the new user's location. */
  method Register(db: Database, encoder: PasswordEncoder, req: UserRequest) returns (r: Result<Response, Exception>)
    requires db.Valid()
    modifies db
    ensures db.Valid()
    ensures exists s :: UserService.CreateEffect(db, encoder, req, s) && r == CreatedResponse(s)
  {
    var created := UserService.Create(db, encoder, req);
    if created.Err? {
      return Err(created.error);
    }
    r := Ok(Response(HTTP_CREATED, Some(UserLocation(created.value.userId)), UserBody(created.value)));
  }

  /** A 200 carrying the service's user, or what the service threw. */
  function UserOk(s: Result<UserResponse, Exception>): Result<Response, Exception> {
    match s
    case Err(e) => Err(e)
    case Ok(u) => Ok(Response(HTTP_OK, None, UserBody(u)))
  }

  /**
    `update` (PUT /update_account/{userId}): only the owner or an administrator
    reaches the service; anyone else gets 403 and nothing is written.
  */
  method UpdateAccount(db: Database, encoder: PasswordEncoder, auth: Option<Authentication>, userId: int, req: UserRequest, now: string)
    returns (r: Result<Response, Exception>)
    requires db.Valid()
    modifies db
    ensures db.Valid()
    ensures AuthenticationService.CanAccess(auth, old(db.users), userId).Err? ==>
      r == Err(AuthenticationService.CanAccess(auth, old(db.users), userId).error) && unchanged(db)
    ensures AuthenticationService.CanAccess(auth, old(db.users), userId) == Ok(false) ==>
      r == Ok(Forbidden(UPDATE_FORBIDDEN, now)) && unchanged(db)
    ensures AuthenticationService.CanAccess(auth, old(db.users), userId) == Ok(true) ==>
      exists s :: UserService.UpdateEffect(db, encoder, userId, req, s) && r == UserOk(s)
  {
    var allowed := AuthenticationService.CanAccess(auth, db.users, userId);
    if allowed.Err? {
      return Err(allowed.error);
    }
    if !allowed.value {
      return Ok(Forbidden(UPDATE_FORBIDDEN, now));
    }
    var updated := UserService.Update(db, encoder, userId, req);
    r := UserOk(updated);
  }

  /** `delete` (DELETE /delete_account/{userId}): owner or administrator only; 204 once deleted. */
  method DeleteAccount(db: Database, auth: Option<Authentication>, userId: int, now: string) returns (r: Result<Response, Exception>)
    requires db.Valid()
    modifies db
    ensures db.Valid()
    ensures AuthenticationService.CanAccess(auth, old(db.users), userId).Err? ==>
      r == Err(AuthenticationService.CanAccess(auth, old(db.users), userId).error) && unchanged(db)
    ensures AuthenticationService.CanAccess(auth, old(db.users), userId) == Ok(false) ==>
      r == Ok(Forbidden(DELETE_FORBIDDEN, now)) && unchanged(db)
    ensures AuthenticationService.CanAccess(auth, old(db.users), userId) == Ok(true) ==>
      exists s :: UserService.DeleteEffect(db, userId, s) && r == NoContent(s)
  {
    var allowed := AuthenticationService.CanAccess(auth, db.users, userId);
    if allowed.Err? {
      return Err(allowed.error);
    }
    if !allowed.value {
      return Ok(Forbidden(DELETE_FORBIDDEN, now));
    }
    var outcome := UserService.Delete(db, userId);
    r := NoContent(outcome);
  }

  /** `getUserById` (GET /{userId}): owner or administrator only. */
  function GetUserById(auth: Option<Authentication>, users: seq<User>, profiles: seq<Profile>, userId: int, now: string): (r: Result<Response, Exception>)
    ensures AuthenticationService.CanAccess(auth, users, userId).Err? ==> r == Err(AuthenticationService.CanAccess(auth, users, userId).error)
    ensures AuthenticationService.CanAccess(auth, users, userId) == Ok(false) ==> r == Ok(Forbidden(VIEW_FORBIDDEN, now))
    ensures AuthenticationService.CanAccess(auth, users, userId) == Ok(true) ==> r == UserOk(UserService.FindById(users, profiles, userId))
    ensures r.Ok? && r.value.status == HTTP_OK ==>
      AuthenticationService.CanAccess(auth, users, userId) == Ok(true)
      && r.value.body.UserBody? && r.value.body.user.userId == userId
  {
    match AuthenticationService.CanAccess(auth, users, userId)
    case Err(e) => Err(e)
    case Ok(allowed) =>
      if !allowed then Ok(Forbidden(VIEW_FORBIDDEN, now))
      else UserOk(UserService.FindById(users, profiles, userId))
  }

  /** Every authenticated, stored caller reads their own record. */
  lemma OwnerReadsOwnRecord(auth: Option<Authentication>, users: seq<User>, profiles: seq<Profile>, u: User, now: string)
    requires AuthenticationService.GetCurrentUser(auth, users) == Ok(u)
    ensures GetUserById(auth, users, profiles, u.id, now).Ok?
    ensures GetUserById(auth, users, profiles, u.id, now).value.status == HTTP_OK
  {
    AuthenticationService.SelfAccess(auth, users, u);
    assert FindUserById(users, u.id).Some?;
  }

  /** `getCurrentUser` (GET /me): the record stored under the authenticated e-mail. */
  function Me(auth: Option<Authentication>, users: seq<User>, profiles: seq<Profile>): (r: Result<Response, Exception>)
    ensures r.Ok? ==> auth.Some? && r.value.status == HTTP_OK && r.value.body.UserBody? && r.value.body.user.email == auth.value.name
    ensures r.Err? <==> auth.None? || !auth.value.authenticated || FindUserByEmail(users, auth.value.name).None?
    ensures AuthenticationService.GetCurrentUserEmail(auth).Err? ==> r == Err(AuthenticationService.GetCurrentUserEmail(auth).error)
    ensures AuthenticationService.GetCurrentUserEmail(auth).Ok? ==> r == UserOk(UserService.FindByEmail(users, profiles, auth.value.name))
  {
    match AuthenticationService.GetCurrentUserEmail(auth)
    case Err(e) => Err(e)
    case Ok(email) => UserOk(UserService.FindByEmail(users, profiles, email))
  }

  /**
    With the users table's columns unique, `/me` answers exactly what
    `getUserById` answers the same caller for their own id: the stored record
    and its profile.
  */
  lemma MeIsOwnRecord(auth: Option<Authentication>, users: seq<User>, profiles: seq<Profile>, u: User, now: string)
    requires UniqueUsers(users)
    requires AuthenticationService.GetCurrentUser(auth, users) == Ok(u)
    ensures Me(auth, users, profiles) == GetUserById(auth, users, profiles, u.id, now)
    ensures Me(auth, users, profiles) == Ok(Response(HTTP_OK, None, UserBody(UserToResponse(u, FindProfileOfUser(profiles, u.id)))))
  {
    AuthenticationService.SelfAccess(auth, users, u);
    StoredUserIsFound(users, u);
  }

  /** The extra claims of the login token: the caller's authorities and user id. */
  function LoginClaims(details: UserDetails, userId: int): (c: map<string, Claim>)
    ensures c.Keys == {"roles", "userId"}
    ensures c["roles"] == AuthorityNames(details.authorities) && c["userId"] == Number(userId)
  {
    map["roles" := AuthorityNames(details.authorities), "userId" := Number(userId)]
  }

  /** The body of a successful login. */
  function AuthResponseOf(token: string, expiresIn: int, user: UserAuth): AuthResponse {
    AuthResponse(token, BEARER, expiresIn, user.id, user.userName, user.email, user.dateBirth, user.roles, user.profile)
  }

  /** `login` (POST /login): the service's credential check, then a token over the caller's details and claims. */
  function Login(users: seq<User>, profiles: seq<Profile>, encoder: PasswordEncoder, jwt: JwtService, email: string, password: string): (r: Result<Response, Exception>)
    ensures r.Ok? <==> FindUserByEmail(users, email).Some? && encoder.matches(password, FindUserByEmail(users, email).value.passwordHash)
    ensures r.Err? ==> r.error == UserService.Login(users, profiles, encoder, email, password).error
    ensures r.Ok? ==>
      var u := FindUserByEmail(users, email).value;
      var details := UserDetailsService.LoadUserByUsername(users, email).value;
      && r.value.status == HTTP_OK && r.value.body.AuthBody?
      && r.value.body.auth.tokenType == BEARER
      && r.value.body.auth.expiresIn == jwt.expirationTime
      && r.value.body.auth.userId == u.id && r.value.body.auth.email == email
      && r.value.body.auth.roles == RoleNames(u.roles)
      && r.value.body.auth.token == jwt.generateToken(LoginClaims(details, u.id), details)
      && details.authorities == UserDetailsService.Authorities(u.roles)
  {
    match UserService.Login(users, profiles, encoder, email, password)
    case Err(e) => Err(e)
    case Ok(user) =>
      match UserDetailsService.LoadUserByUsername(users, email)
      case Err(e) => Err(e)
      case Ok(details) =>
        var token := jwt.generateToken(LoginClaims(details, user.id), details);
        Ok(Response(HTTP_OK, None, AuthBody(AuthResponseOf(token, jwt.expirationTime, user))))
  }

  /** A wrong password for a stored e-mail is answered 401 AUTHENTICATION_FAILED, "Invalid credentials". */
  lemma WrongPasswordIsUnauthorized(users: seq<User>, profiles: seq<Profile>, encoder: PasswordEncoder, jwt: JwtService, email: string, password: string, now: string)
    requires FindUserByEmail(users, email).Some?
    requires !encoder.matches(password, FindUserByEmail(users, email).value.passwordHash)
    ensures ExceptionHandler.Respond(Login(users, profiles, encoder, jwt, email, password), now)
         == Some(Response(HTTP_UNAUTHORIZED, None, Json(ErrorBody("AUTHENTICATION_FAILED", UserService.INVALID_CREDENTIALS, now))))
  {
  }

  /** An unknown e-mail is answered 404 NOT_FOUND, "Invalid credentials". */
  lemma UnknownEmailIsNotFound(users: seq<User>, profiles: seq<Profile>, encoder: PasswordEncoder, jwt: JwtService, email: string, password: string, now: string)
    requires FindUserByEmail(users, email).None?
    ensures ExceptionHandler.Respond(Login(users, profiles, encoder, jwt, email, password), now)
         == Some(Response(HTTP_NOT_FOUND, None, Json(ErrorBody("NOT_FOUND", UserService.INVALID_CREDENTIALS, now))))
  {
  }

  /**
    Registration that asks for a restricted role, with every requested id
    stored, fails with `IllegalArgumentException` and so is answered 401.
  */
  lemma RestrictedRegistrationIsUnauthorized(table: seq<Role>, ids: seq<int>, i: nat, now: string)
    requires forall id :: id in ids ==> FindRole(table, id).Some?
    requires FindRole(table, UserService.DEFAULT_ROLE_ID).Some?
    requires i < |ids| && ids[i] != UserService.DEFAULT_ROLE_ID && UserService.IsRestricted(FindRole(table, ids[i]).value)
    ensures UserService.AssignedRoles(table, [], Some(ids)).Err?
    ensures var answer := ExceptionHandler.Handle(UserService.AssignedRoles(table, [], Some(ids)).error, now);
      answer.Some? && answer.value.status == HTTP_UNAUTHORIZED
  {
    UserService.CreateRefusesRestricted(table, ids, i);
    UserService.RestrictedFailureIsIllegalArgument(table, [], ids);
  }

  /**
    A registration whose roles are admitted but whose e-mail is already stored
    writes nothing and is answered 409 CONFLICT with the unique-constraint message.
  */
  twostate lemma DuplicateEmailIsConflict(db: Database, encoder: PasswordEncoder, req: UserRequest, new s: Result<UserResponse, Exception>, now: string)
    requires old(db.Valid())
    requires UserService.AssignedRoles(old(db.roles), [], req.roles).Ok?
    requires exists v :: v in old(db.users) && v.email == req.email
    requires UserService.CreateEffect(db, encoder, req, s)
    ensures unchanged(db)
    ensures ExceptionHandler.Respond(CreatedResponse(s), now)
         == Some(Response(HTTP_CONFLICT, None, Json(ErrorBody("CONFLICT", DUPLICATE_KEY, now))))
  {
    var roles := UserService.AssignedRoles(old(db.roles), [], req.roles).value;
    var saved := UserService.NewUser(encoder, req, roles).(id := old(db.nextUserId));
    var v :| v in old(db.users) && v.email == req.email;
    assert v.id != saved.id && v.email == saved.email;
  }
}
