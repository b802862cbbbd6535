/**
  The access-control decision of `AuthenticationService`: who is calling
  (the security context's authentication), which stored user that is (looked
  up again by e-mail on every call), and whether that user may act on the
  resources of a given user id (owner, or holder of a role named ADMIN in any
  letter case).
*/
module AuthenticationService {
  import opened Wrappers
  import opened Text
  import opened Domain

  const NOT_AUTHENTICATED := "No hay usuario autenticado"
  const CURRENT_USER_NOT_FOUND := "Usuario autenticado no encontrado"
  const ACCESS_DENIED := "No tienes permiso para acceder a este recurso"
  const ADMIN := "ADMIN"

  /** `getCurrentUserEmail`: the name of an authenticated authentication, or an `IllegalStateException`. */
  function GetCurrentUserEmail(auth: Option<Authentication>): (r: Result<string, Exception>)
    ensures r.Ok? <==> auth.Some? && auth.value.authenticated
    ensures r.Ok? ==> r.value == auth.value.name
    ensures r.Err? ==> r.error == IllegalState(NOT_AUTHENTICATED)
  {
    if auth.None? || !auth.value.authenticated then Err(IllegalState(NOT_AUTHENTICATED))
    else Ok(auth.value.name)
  }

  /** `getCurrentUser`: the stored record of the authenticated e-mail. */
  function GetCurrentUser(auth: Option<Authentication>, users: seq<User>): (r: Result<User, Exception>)
    ensures r.Ok? <==> auth.Some? && auth.value.authenticated && FindUserByEmail(users, auth.value.name).Some?
    ensures r.Ok? ==> r.value in users && r.value.email == auth.value.name
    ensures r.Err? ==> r.error == if auth.Some? && auth.value.authenticated then EntityNotFound(CURRENT_USER_NOT_FOUND) else IllegalState(NOT_AUTHENTICATED)
  {
    match GetCurrentUserEmail(auth)
    case Err(e) => Err(e)
    case Ok(email) =>
      match FindUserByEmail(users, email)
      case None => Err(EntityNotFound(CURRENT_USER_NOT_FOUND))
      case Some(u) => Ok(u)
  }

  /** `getCurrentUserId`. */
  function GetCurrentUserId(auth: Option<Authentication>, users: seq<User>): Result<int, Exception> {
    match GetCurrentUser(auth, users)
    case Err(e) => Err(e)
    case Ok(u) => Ok(u.id)
  }

  /** `isOwner`: the stored id of the caller is `userId`. */
  function IsOwner(auth: Option<Authentication>, users: seq<User>, userId: int): (r: Result<bool, Exception>)
    ensures r.Err? <==> GetCurrentUser(auth, users).Err?
    ensures r.Ok? ==> (r.value <==> GetCurrentUser(auth, users).value.id == userId)
  {
    match GetCurrentUserId(auth, users)
    case Err(e) => Err(e)
    case Ok(id) => Ok(id == userId)
  }

  /** The stream `anyMatch` of `hasRole`: some role's name equals `roleName` ignoring case. */
  function AnyRoleNamed(roles: seq<Role>, roleName: string): (r: bool)
    ensures r <==> exists role :: role in roles && EqualsIgnoreCase(role.name, roleName)
  {
    if roles == [] then false
    else EqualsIgnoreCase(roles[0].name, roleName) || AnyRoleNamed(roles[1..], roleName)
  }

  /** `hasRole`: decided on the roles stored for the caller now. */
  function HasRole(auth: Option<Authentication>, users: seq<User>, roleName: string): (r: Result<bool, Exception>)
    ensures r.Err? <==> GetCurrentUser(auth, users).Err?
    ensures r.Ok? ==> (r.value <==> exists role :: role in GetCurrentUser(auth, users).value.roles && EqualsIgnoreCase(role.name, roleName))
  {
    match GetCurrentUser(auth, users)
    case Err(e) => Err(e)
    case Ok(u) => Ok(AnyRoleNamed(u.roles, roleName))
  }

  /** `isAdmin`. */
  function IsAdmin(auth: Option<Authentication>, users: seq<User>): (r: Result<bool, Exception>)
    ensures r.Err? <==> GetCurrentUser(auth, users).Err?
    ensures r.Ok? ==> (r.value <==> exists role :: role in GetCurrentUser(auth, users).value.roles && Upper(role.name) == ADMIN)
  {
    HasRole(auth, users, ADMIN)
  }

  /** Whether `u` may act on the resources of `userId`: owner or administrator. */
  predicate Allowed(u: User, userId: int) {
    u.id == userId || AnyRoleNamed(u.roles, ADMIN)
  }

  /** `canAccess`: `isOwner(userId) || isAdmin()`, the second asked only when the first is false. */
  function CanAccess(auth: Option<Authentication>, users: seq<User>, userId: int): (r: Result<bool, Exception>)
    ensures GetCurrentUser(auth, users).Err? ==> r == Err(GetCurrentUser(auth, users).error)
    ensures GetCurrentUser(auth, users).Ok? ==> r == Ok(Allowed(GetCurrentUser(auth, users).value, userId))
  {
    match IsOwner(auth, users, userId)
    case Err(e) => Err(e)
    case Ok(owner) => if owner then Ok(true) else IsAdmin(auth, users)
  }

  /** `validateAccess`: a `SecurityException` when access is denied, nothing otherwise. */
  function ValidateAccess(auth: Option<Authentication>, users: seq<User>, userId: int): (r: Outcome<Exception>)
    ensures GetCurrentUser(auth, users).Err? ==> r == Fail(GetCurrentUser(auth, users).error)
    ensures GetCurrentUser(auth, users).Ok? ==>
      r == if Allowed(GetCurrentUser(auth, users).value, userId) then Pass else Fail(Security(ACCESS_DENIED))
  {
    match CanAccess(auth, users, userId)
    case Err(e) => Fail(e)
    case Ok(allowed) => if allowed then Pass else Fail(Security(ACCESS_DENIED))
  }

  /**
    The whole decision: without an authenticated caller it fails, for an unknown
    caller it fails with not-found, and otherwise it answers exactly `Allowed`
    for the record stored under the caller's e-mail.
  */
  lemma CanAccessDecision(auth: Option<Authentication>, users: seq<User>, userId: int)
    ensures auth.None? || !auth.value.authenticated ==>
      CanAccess(auth, users, userId) == Err(IllegalState(NOT_AUTHENTICATED))
    ensures auth.Some? && auth.value.authenticated && FindUserByEmail(users, auth.value.name).None? ==>
      CanAccess(auth, users, userId) == Err(EntityNotFound(CURRENT_USER_NOT_FOUND))
    ensures auth.Some? && auth.value.authenticated && FindUserByEmail(users, auth.value.name).Some? ==>
      CanAccess(auth, users, userId) == Ok(Allowed(FindUserByEmail(users, auth.value.name).value, userId))
  {
  }

  /** Self access: a caller may always act on their own id, whatever their roles. */
  lemma SelfAccess(auth: Option<Authentication>, users: seq<User>, u: User)
    requires GetCurrentUser(auth, users) == Ok(u)
    ensures CanAccess(auth, users, u.id) == Ok(true)
  {
  }

  /** Admin override: a caller holding a role named ADMIN in any letter case may act on every id. */
  lemma AdminOverride(auth: Option<Authentication>, users: seq<User>, u: User, role: Role, userId: int)
    requires GetCurrentUser(auth, users) == Ok(u)
    requires role in u.roles && Upper(role.name) == ADMIN
    ensures CanAccess(auth, users, userId) == Ok(true)
  {
    assert EqualsIgnoreCase(role.name, ADMIN);
  }

  /** Deny by default: for another user's id and no ADMIN role the answer is no; MODERATOR grants nothing. */
  lemma DenyByDefault(auth: Option<Authentication>, users: seq<User>, u: User, userId: int)
    requires GetCurrentUser(auth, users) == Ok(u)
    requires userId != u.id
    requires forall role :: role in u.roles ==> Upper(role.name) != ADMIN
    ensures CanAccess(auth, users, userId) == Ok(false)
  {
  }

  /** `hasRole(r)` is true iff one of the stored role names equals `r` ignoring case. */
  lemma HasRoleMeaning(auth: Option<Authentication>, users: seq<User>, u: User, roleName: string)
    requires GetCurrentUser(auth, users) == Ok(u)
    ensures HasRole(auth, users, roleName) == Ok(exists role :: role in u.roles && Upper(role.name) == Upper(roleName))
  {
  }

  /**
    Live roles: the decision reads the caller's roles from the store, not the
    authorities carried by the authentication. Two authentications for the same
    e-mail get the same answer whatever authorities they carry, and replacing the
    stored roles of the caller changes the answer to the one for the new roles.
  */
  lemma DecisionIgnoresAuthorities(a: Authentication, b: Authentication, users: seq<User>, userId: int)
    requires a.name == b.name && a.authenticated == b.authenticated
    ensures CanAccess(Some(a), users, userId) == CanAccess(Some(b), users, userId)
  {
  }

  lemma {:induction false} RoleChangeTakesEffect(a: Authentication, users: seq<User>, i: nat, newRoles: seq<Role>, userId: int)
    requires i < |users| && a.authenticated && a.name == users[i].email
    requires forall j :: 0 <= j < i ==> users[j].email != users[i].email
    ensures CanAccess(Some(a), users[i := users[i].(roles := newRoles)], userId)
         == Ok(Allowed(users[i].(roles := newRoles), userId))
  {
    var updated := users[i := users[i].(roles := newRoles)];
    FirstAt(updated, i, (u: User) => u.email == a.name);
  }

  /** With no authentication, or an unauthenticated one, every predicate fails instead of answering. */
  lemma FailsClosedWithoutAuthentication(auth: Option<Authentication>, users: seq<User>, userId: int, roleName: string)
    requires auth.None? || !auth.value.authenticated
    ensures IsOwner(auth, users, userId).Err? && HasRole(auth, users, roleName).Err?
    ensures CanAccess(auth, users, userId).Err? && ValidateAccess(auth, users, userId).Fail?
  {
  }

  /** `validateAccess` raises `SecurityException` iff `canAccess` answers no, and passes iff it answers yes. */
  lemma ValidateAccessMatchesCanAccess(auth: Option<Authentication>, users: seq<User>, userId: int)
    ensures ValidateAccess(auth, users, userId) == Fail(Security(ACCESS_DENIED)) <==> CanAccess(auth, users, userId) == Ok(false)
    ensures ValidateAccess(auth, users, userId) == Pass <==> CanAccess(auth, users, userId) == Ok(true)
  {
  }
}
