/**
  `UserServiceImpl`: registration and account update with their role
  assignment rules, deletion, login and the two lookups.

  Role assignment (shared by `create` and `update`): the default role (id 1)
  is always present; every other requested id must name a stored role; a role
  whose upper-cased name is ADMIN or MODERATOR is refused unless the account
  already holds a role with that id (never, at registration); and duplicate
  ids are dropped, keeping the first occurrence.
*/
module UserService {
  import opened Wrappers
  import opened Text
  import opened Domain
  import opened Store

  const RESTRICTED_ROLES: seq<string> := ["ADMIN", "MODERATOR"]
  const DEFAULT_ROLE_ID := 1
  const DEFAULT_LANGUAGE := "es"
  const DEFAULT_AVATAR_URL := "https://media.istockphoto.com/id/1495088043/es/vector/icono-de-perfil-de-usuario-avatar-o-icono-de-persona-foto-de-perfil-s%C3%ADmbolo-de-retrato.jpg?s=612x612&w=0&k=20&c=mY3gnj2lU7khgLhV6dQBNqomEGj3ayWH-xtpYuCXrzk="
  const DEFAULT_BIO := "Nuevo usuario registrado."
  const DEFAULT_ROLE_MISSING := "Default role not found"
  const INVALID_CREDENTIALS := "Invalid credentials"

  predicate IsRestricted(role: Role) {
    Upper(role.name) in RESTRICTED_ROLES
  }

  /** Some role in `roles` has id `id`. */
  predicate HoldsId(roles: seq<Role>, id: int) {
    exists r :: r in roles && r.id == id
  }

  function RestrictedMessage(role: Role): string {
    "Cannot assign restricted role: " + role.name + ". This role can only be assigned by an administrator."
  }

  /** One requested id other than the default: the stored role, or why it is refused. */
  function AdmitRole(table: seq<Role>, held: seq<Role>, id: int): (r: Result<Role, Exception>)
    ensures r.Ok? <==> FindRole(table, id).Some? && (!IsRestricted(FindRole(table, id).value) || HoldsId(held, id))
    ensures r.Ok? ==> r.value == FindRole(table, id).value
  {
    match FindRole(table, id)
    case None => Err(EntityNotFound("Role not found: " + IntToString(id)))
    case Some(role) =>
      if IsRestricted(role) && !HoldsId(held, id) then Err(IllegalArgument(RestrictedMessage(role)))
      else Ok(role)
  }

  /** The roles the loop over `ids` appends after the default one, or the exception that stops it. */
  function RequestedRoles(table: seq<Role>, held: seq<Role>, ids: seq<int>): (r: Result<seq<Role>, Exception>)
    ensures r.Ok? ==> |r.value| <= |ids| && forall x :: x in r.value ==> x in table
    decreases |ids|
  {
    if ids == [] then Ok([])
    else
      match RequestedRoles(table, held, ids[..|ids| - 1])
      case Err(e) => Err(e)
      case Ok(acc) =>
        var id := ids[|ids| - 1];
        if id == DEFAULT_ROLE_ID then Ok(acc)
        else
          match AdmitRole(table, held, id)
          case Err(e) => Err(e)
          case Ok(role) => Ok(acc + [role])
  }

  /** Keeps the first role of each id, in order (`Collectors.toMap` keeping the first, or a `HashSet`). */
  function DistinctById(roles: seq<Role>): (r: seq<Role>)
    ensures forall x :: x in r ==> x in roles
    ensures forall x :: x in roles ==> HoldsId(r, x.id)
    ensures forall i, j :: 0 <= i < j < |r| ==> r[i].id != r[j].id
    ensures roles != [] ==> r != [] && r[0] == roles[0]
    decreases |roles|
  {
    if roles == [] then []
    else
      var init, last := DistinctById(roles[..|roles| - 1]), roles[|roles| - 1];
      assert roles == roles[..|roles| - 1] + [last];
      if HoldsId(init, last.id) then init else init + [last]
  }

  /** The role kept for an id is the first one in the input with that id. */
  lemma {:induction false} DistinctByIdKeepsFirst(roles: seq<Role>)
    ensures forall x :: x in DistinctById(roles) ==> FindRole(roles, x.id) == Some(x)
    decreases |roles|
  {
    if roles != [] {
      var prefix, last := roles[..|roles| - 1], roles[|roles| - 1];
      assert roles == prefix + [last];
      DistinctByIdKeepsFirst(prefix);
      forall x | x in DistinctById(roles) ensures FindRole(roles, x.id) == Some(x) {
        FirstAppend(prefix, last, (y: Role) => y.id == x.id);
        if x in DistinctById(prefix) {
        } else {
          assert x == last;
          assert !HoldsId(DistinctById(prefix), last.id);
        }
      }
    }
  }

  /** The role list `create` (with `held == []`) or `update` (with the account's roles) saves. */
  function AssignedRoles(table: seq<Role>, held: seq<Role>, requested: Option<seq<int>>): (r: Result<seq<Role>, Exception>)
    ensures FindRole(table, DEFAULT_ROLE_ID).None? ==> r == Err(EntityNotFound(DEFAULT_ROLE_MISSING))
    ensures r.Ok? ==> r.value != [] && Some(r.value[0]) == FindRole(table, DEFAULT_ROLE_ID)
    ensures r.Ok? ==> forall x :: x in r.value ==> x in table
  {
    match FindRole(table, DEFAULT_ROLE_ID)
    case None => Err(EntityNotFound(DEFAULT_ROLE_MISSING))
    case Some(d) =>
      match RequestedRoles(table, held, if requested.Some? then requested.value else [])
      case Err(e) => Err(e)
      case Ok(extra) => Ok(DistinctById([d] + extra))
  }

  /** Once the loop has stopped with an exception, longer request lists stop with the same one. */
  lemma {:induction false} RequestedRolesErrorPersists(table: seq<Role>, held: seq<Role>, ids: seq<int>, n: nat, e: Exception)
    requires n <= |ids|
    requires RequestedRoles(table, held, ids[..n]) == Err(e)
    ensures RequestedRoles(table, held, ids) == Err(e)
    decreases |ids| - n
  {
    if n < |ids| {
      assert ids[..n + 1][..n] == ids[..n];
      RequestedRolesErrorPersists(table, held, ids, n + 1, e);
    } else {
      assert ids[..n] == ids;
    }
  }

  /** One more turn of the loop over `ids`. */
  lemma RequestedRolesStep(table: seq<Role>, held: seq<Role>, ids: seq<int>, i: nat)
    requires i < |ids|
    ensures RequestedRoles(table, held, ids[..i + 1]) ==
      match RequestedRoles(table, held, ids[..i])
      case Err(e) => Err(e)
      case Ok(acc) =>
        if ids[i] == DEFAULT_ROLE_ID then Ok(acc)
        else match AdmitRole(table, held, ids[i])
          case Err(e) => Err(e)
          case Ok(role) => Ok(acc + [role])
  {
    assert ids[..i + 1][..i] == ids[..i];
  }

  /** Every requested id is either admitted or the loop fails: the loop succeeds exactly when each is. */
  predicate AllAdmissible(table: seq<Role>, held: seq<Role>, ids: seq<int>) {
    forall i :: 0 <= i < |ids| && ids[i] != DEFAULT_ROLE_ID ==> AdmitRole(table, held, ids[i]).Ok?
  }

  lemma {:induction false} RequestedRolesMeaning(table: seq<Role>, held: seq<Role>, ids: seq<int>)
    ensures RequestedRoles(table, held, ids).Ok? <==> AllAdmissible(table, held, ids)
    ensures RequestedRoles(table, held, ids).Ok? ==>
      var extra := RequestedRoles(table, held, ids).value;
      && (forall x :: x in extra ==> x.id != DEFAULT_ROLE_ID && x.id in ids && AdmitRole(table, held, x.id) == Ok(x))
      && (forall id :: id in ids && id != DEFAULT_ROLE_ID ==> HoldsId(extra, id))
    decreases |ids|
  {
    if ids != [] {
      var init, id := ids[..|ids| - 1], ids[|ids| - 1];
      RequestedRolesMeaning(table, held, init);
      assert ids == init + [id];
      assert AllAdmissible(table, held, ids) <==> AllAdmissible(table, held, init) && (id != DEFAULT_ROLE_ID ==> AdmitRole(table, held, id).Ok?) by {
        if AllAdmissible(table, held, init) && (id != DEFAULT_ROLE_ID ==> AdmitRole(table, held, id).Ok?) {
          forall i | 0 <= i < |ids| && ids[i] != DEFAULT_ROLE_ID ensures AdmitRole(table, held, ids[i]).Ok? {
            if i < |init| { assert ids[i] == init[i]; }
          }
        }
        if AllAdmissible(table, held, ids) {
          forall i | 0 <= i < |init| && init[i] != DEFAULT_ROLE_ID ensures AdmitRole(table, held, init[i]).Ok? {
            assert init[i] == ids[i];
          }
        }
      }
    }
  }

  /**
    The saved role list: it succeeds exactly when the default role is stored
    and every requested id is admissible; it then starts with the default role,
    has no two roles with one id, holds every requested id, and holds nothing
    else but admitted requested roles.
  */
  lemma AssignedRolesMeaning(table: seq<Role>, held: seq<Role>, requested: Option<seq<int>>)
    ensures var ids := if requested.Some? then requested.value else [];
      AssignedRoles(table, held, requested).Ok? <==>
        FindRole(table, DEFAULT_ROLE_ID).Some? && AllAdmissible(table, held, ids)
    ensures AssignedRoles(table, held, requested).Ok? ==>
      var ids := if requested.Some? then requested.value else [];
      var rs := AssignedRoles(table, held, requested).value;
      && |rs| > 0 && rs[0] == FindRole(table, DEFAULT_ROLE_ID).value && rs[0].id == DEFAULT_ROLE_ID
      && (forall i, j :: 0 <= i < j < |rs| ==> rs[i].id != rs[j].id)
      && (forall id :: id in ids ==> HoldsId(rs, id))
      && (forall x :: x in rs && x.id != DEFAULT_ROLE_ID ==>
            x.id in ids && FindRole(table, x.id) == Some(x) && (!IsRestricted(x) || HoldsId(held, x.id)))
  {
    var ids := if requested.Some? then requested.value else [];
    RequestedRolesMeaning(table, held, ids);
    if AssignedRoles(table, held, requested).Ok? {
      var d := FindRole(table, DEFAULT_ROLE_ID).value;
      var extra := RequestedRoles(table, held, ids).value;
      var rs := AssignedRoles(table, held, requested).value;
      assert rs == DistinctById([d] + extra);
      forall id | id in ids ensures HoldsId(rs, id) {
        if id == DEFAULT_ROLE_ID {
          assert d in [d] + extra;
        } else {
          var x :| x in extra && x.id == id;
          assert x in [d] + extra;
        }
      }
      forall x | x in rs && x.id != DEFAULT_ROLE_ID
        ensures x.id in ids && FindRole(table, x.id) == Some(x) && (!IsRestricted(x) || HoldsId(held, x.id))
      {
        assert x in [d] + extra;
        assert x in extra;
      }
    }
  }

  /**
    The loop stops at the first refused id, in request order, with that id's
    exception: not-found for an unknown id, `IllegalArgumentException` for a
    restricted role not already held.
  */
  lemma FirstRefusalWins(table: seq<Role>, held: seq<Role>, ids: seq<int>, i: nat)
    requires i < |ids| && ids[i] != DEFAULT_ROLE_ID && AdmitRole(table, held, ids[i]).Err?
    requires AllAdmissible(table, held, ids[..i])
    ensures FindRole(table, ids[i]).None? ==>
      RequestedRoles(table, held, ids) == Err(EntityNotFound("Role not found: " + IntToString(ids[i])))
    ensures FindRole(table, ids[i]).Some? ==>
      RequestedRoles(table, held, ids) == Err(IllegalArgument(RestrictedMessage(FindRole(table, ids[i]).value)))
  {
    RequestedRolesMeaning(table, held, ids[..i]);
    RequestedRolesStep(table, held, ids, i);
    RequestedRolesErrorPersists(table, held, ids, i + 1, AdmitRole(table, held, ids[i]).error);
  }

  /** At registration a restricted role is never granted: a request naming one fails. */
  lemma CreateRefusesRestricted(table: seq<Role>, ids: seq<int>, i: nat)
    requires i < |ids| && ids[i] != DEFAULT_ROLE_ID
    requires FindRole(table, ids[i]).Some? && IsRestricted(FindRole(table, ids[i]).value)
    ensures AssignedRoles(table, [], Some(ids)).Err?
  {
    AssignedRolesMeaning(table, [], Some(ids));
  }

  /** When every requested id is stored, the failure for a restricted request is an `IllegalArgumentException`. */
  lemma {:induction false} RestrictedFailureIsIllegalArgument(table: seq<Role>, held: seq<Role>, ids: seq<int>)
    requires forall id :: id in ids ==> FindRole(table, id).Some?
    ensures RequestedRoles(table, held, ids).Err? ==> RequestedRoles(table, held, ids).error.IllegalArgument?
    decreases |ids|
  {
    if ids != [] {
      RestrictedFailureIsIllegalArgument(table, held, ids[..|ids| - 1]);
    }
  }

  /** An update that names no roles leaves the account with the default role only. */
  lemma UpdateWithoutRolesKeepsDefaultOnly(table: seq<Role>, held: seq<Role>, requested: Option<seq<int>>)
    requires requested.None? || requested.value == []
    requires FindRole(table, DEFAULT_ROLE_ID).Some?
    ensures AssignedRoles(table, held, requested) == Ok([FindRole(table, DEFAULT_ROLE_ID).value])
  {
    var d := FindRole(table, DEFAULT_ROLE_ID).value;
    assert RequestedRoles(table, held, if requested.Some? then requested.value else []) == Ok([]);
    assert DistinctById([d] + []) == [d] by {
      assert [d] + [] == [d];
      assert [d][..0] == [];
    }
  }

  /**
    The role loops of `create` and `update`: the default role first, then each
    requested id other than the default, looked up and checked, and finally the
    duplicates dropped.
  */
  method BuildRoleList(table: seq<Role>, held: seq<Role>, requested: Option<seq<int>>) returns (r: Result<seq<Role>, Exception>)
    ensures r == AssignedRoles(table, held, requested)
  {
    var defaultRole := FindRole(table, DEFAULT_ROLE_ID);
    if defaultRole.None? {
      return Err(EntityNotFound(DEFAULT_ROLE_MISSING));
    }
    var roles := [defaultRole.value];
    var ids := if requested.Some? then requested.value else [];
    var i := 0;
    while i < |ids|
      invariant 0 <= i <= |ids|
      invariant RequestedRoles(table, held, ids[..i]).Ok?
      invariant roles == [defaultRole.value] + RequestedRoles(table, held, ids[..i]).value
    {
      var id := ids[i];
      RequestedRolesStep(table, held, ids, i);
      if id == DEFAULT_ROLE_ID {
        i := i + 1;
        continue;
      }
      var role := FindRole(table, id);
      if role.None? {
        RequestedRolesErrorPersists(table, held, ids, i + 1, EntityNotFound("Role not found: " + IntToString(id)));
        return Err(EntityNotFound("Role not found: " + IntToString(id)));
      }
      if IsRestricted(role.value) {
        var alreadyHeld := exists x :: x in held && x.id == id;
        if !alreadyHeld {
          RequestedRolesErrorPersists(table, held, ids, i + 1, IllegalArgument(RestrictedMessage(role.value)));
          return Err(IllegalArgument(RestrictedMessage(role.value)));
        }
      }
      roles := roles + [role.value];
      i := i + 1;
    }
    assert ids[..|ids|] == ids;
    r := Ok(DistinctById(roles));
  }

  /** The profile language: the request's when non-null and non-blank, otherwise "es". */
  function LanguageOrDefault(requested: Option<string>): (lang: string)
    ensures HasText(requested) ==> lang == requested.value
    ensures !HasText(requested) ==> lang == DEFAULT_LANGUAGE
  {
    if HasText(requested) then requested.value else DEFAULT_LANGUAGE
  }

  /** The user `create` saves before the database assigns its id. */
  function NewUser(encoder: PasswordEncoder, req: UserRequest, roles: seq<Role>): User {
    User(0, req.name, req.email, encoder.encode(req.password),
         req.dateBirth, roles)
  }

  /** The default profile `create` saves for a user. */
  function DefaultProfile(saved: User, req: UserRequest): Profile {
    Profile(0, saved.name, LanguageOrDefault(req.preferredLanguage), DEFAULT_AVATAR_URL, DEFAULT_BIO, saved.id)
  }

  /** What `create` does to the database and returns. */
  twostate predicate CreateEffect(db: Database, encoder: PasswordEncoder, req: UserRequest, new r: Result<UserResponse, Exception>)
    reads db
  {
    match AssignedRoles(old(db.roles), [], req.roles)
    case Err(e) => r == Err(e) && unchanged(db)
    case Ok(roles) =>
      var saved := NewUser(encoder, req, roles).(id := old(db.nextUserId));
      if EmailTaken(old(db.users), saved) then
        r == Err(DataIntegrityViolation(DUPLICATE_KEY)) && unchanged(db)
      else
        var profile := DefaultProfile(saved, req).(id := old(db.nextProfileId));
        && db.users == old(db.users) + [saved]
        && db.profiles == old(db.profiles) + [profile]
        && db.roles == old(db.roles)
        && r == Ok(UserToResponse(saved, Some(profile)))
  }

  /**
    `create`: the role list is settled before anything is saved, so a refused or
    unknown role leaves the database untouched; then the user is inserted (a
    taken e-mail fails there) and a default profile is created for it.
  */
  method Create(db: Database, encoder: PasswordEncoder, req: UserRequest) returns (r: Result<UserResponse, Exception>)
    requires db.Valid()
    modifies db
    ensures db.Valid()
    ensures CreateEffect(db, encoder, req, r)
  {
    var roles := BuildRoleList(db.roles, [], req.roles);
    if roles.Err? {
      return Err(roles.error);
    }
    var saved := db.InsertUser(NewUser(encoder, req, roles.value));
    if saved.Err? {
      return Err(saved.error);
    }
    var profile := db.InsertProfile(DefaultProfile(saved.value, req));
    r := Ok(UserToResponse(saved.value, Some(profile)));
  }

  /** `UserMapper.copyToEntity` and the password rule of `update`: name, e-mail, birth date; a new hash only for a non-blank password. */
  function UpdatedFields(existing: User, encoder: PasswordEncoder, req: UserRequest): (u: User)
    ensures u.id == existing.id && u.roles == existing.roles
    ensures u.name == req.name && u.email == req.email && u.dateBirth == req.dateBirth
    ensures u.passwordHash == if !IsBlank(req.password) then encoder.encode(req.password) else existing.passwordHash
  {
    existing.(name := req.name, email := req.email, dateBirth := req.dateBirth,
              passwordHash := if !IsBlank(req.password) then encoder.encode(req.password) else existing.passwordHash)
  }

  /** The profile after `update`: the language replaced when the request carries a non-blank one. */
  function UpdatedProfile(profile: Option<Profile>, req: UserRequest): Option<Profile> {
    if HasText(req.preferredLanguage) && profile.Some? then Some(profile.value.(preferredLanguage := req.preferredLanguage.value))
    else profile
  }

  /**
    `update`: an unknown id fails with not-found and a refused role with its
    exception, both before any write; otherwise the profile language is saved
    (when asked for) and then the user, whose save may still fail on a taken e-mail.
  */
  twostate predicate UpdateEffect(db: Database, encoder: PasswordEncoder, userId: int, req: UserRequest, new r: Result<UserResponse, Exception>)
    reads db
  {
    match FindUserById(old(db.users), userId)
    case None => r == Err(EntityNotFound("User not found: " + IntToString(userId))) && unchanged(db)
    case Some(existing) =>
      match AssignedRoles(old(db.roles), existing.roles, req.roles)
      case Err(e) => r == Err(e) && unchanged(db)
      case Ok(roles) =>
        var u := UpdatedFields(existing, encoder, req).(roles := roles);
        var profile := UpdatedProfile(FindProfileOfUser(old(db.profiles), userId), req);
        && db.profiles == (if profile.Some? && HasText(req.preferredLanguage) then ReplaceProfile(old(db.profiles), profile.value) else old(db.profiles))
        && db.roles == old(db.roles)
        && if EmailTaken(old(db.users), u) then
             r == Err(DataIntegrityViolation(DUPLICATE_KEY)) && db.users == old(db.users)
           else
             r == Ok(UserToResponse(u, profile)) && db.users == ReplaceUser(old(db.users), u)
  }

  /** `update`, as `UpdateEffect` describes it. */
  method Update(db: Database, encoder: PasswordEncoder, userId: int, req: UserRequest) returns (r: Result<UserResponse, Exception>)
    requires db.Valid()
    modifies db
    ensures db.Valid()
    ensures UpdateEffect(db, encoder, userId, req, r)
  {
    var found := FindUserById(db.users, userId);
    if found.None? {
      return Err(EntityNotFound("User not found: " + IntToString(userId)));
    }
    var existing := UpdatedFields(found.value, encoder, req);
    var roles := BuildRoleList(db.roles, found.value.roles, req.roles);
    if roles.Err? {
      return Err(roles.error);
    }
    existing := existing.(roles := roles.value);
    var profile := FindProfileOfUser(db.profiles, userId);
    if HasText(req.preferredLanguage) && profile.Some? {
      profile := Some(profile.value.(preferredLanguage := req.preferredLanguage.value));
      db.UpdateProfile(profile.value);
    }
    var saved := db.UpdateUser(existing);
    if saved.Err? {
      return Err(saved.error);
    }
    r := Ok(UserToResponse(saved.value, profile));
  }

  /** `delete`: not-found for an unknown id with nothing removed, otherwise the user and its profile go. */
  twostate predicate DeleteEffect(db: Database, userId: int, new r: Outcome<Exception>)
    reads db
  {
    if FindUserById(old(db.users), userId).None? then
      r == Fail(EntityNotFound("User not found: " + IntToString(userId))) && unchanged(db)
    else
      && r == Pass
      && db.users == RemoveUser(old(db.users), userId)
      && db.profiles == RemoveProfiles(old(db.profiles), (p: Profile) => p.userId != userId)
      && db.roles == old(db.roles)
  }

  /** `delete`, as `DeleteEffect` describes it. */
  method Delete(db: Database, userId: int) returns (r: Outcome<Exception>)
    requires db.Valid()
    modifies db
    ensures db.Valid()
    ensures DeleteEffect(db, userId, r)
  {
    if FindUserById(db.users, userId).None? {
      return Fail(EntityNotFound("User not found: " + IntToString(userId)));
    }
    db.DeleteUser(userId);
    r := Pass;
  }

  /** The login projection of a stored user: its fields, its role names and its profile. */
  function UserAuthOf(u: User, profiles: seq<Profile>): UserAuth {
    UserAuth(u.id, u.name, u.email, u.dateBirth, u.passwordHash, RoleNames(u.roles), FindProfileOfUser(profiles, u.id))
  }

  /** `login`: not-found for an unknown e-mail, `IllegalArgumentException` for a wrong password. */
  function Login(users: seq<User>, profiles: seq<Profile>, encoder: PasswordEncoder, email: string, password: string): (r: Result<UserAuth, Exception>)
    ensures FindUserByEmail(users, email).None? ==> r == Err(EntityNotFound(INVALID_CREDENTIALS))
    ensures FindUserByEmail(users, email).Some? ==>
      var u := FindUserByEmail(users, email).value;
      r == if encoder.matches(password, u.passwordHash) then Ok(UserAuthOf(u, profiles))
           else Err(IllegalArgument(INVALID_CREDENTIALS))
    ensures r.Ok? ==> r.value.email == email && encoder.matches(password, r.value.passwordHash)
  {
    match FindUserByEmail(users, email)
    case None => Err(EntityNotFound(INVALID_CREDENTIALS))
    case Some(u) =>
      if !encoder.matches(password, u.passwordHash) then Err(IllegalArgument(INVALID_CREDENTIALS))
      else Ok(UserAuthOf(u, profiles))
  }

  /** `findById`: the stored user with the id and its profile, or not-found naming the id. */
  function FindById(users: seq<User>, profiles: seq<Profile>, userId: int): (r: Result<UserResponse, Exception>)
    ensures r.Err? <==> FindUserById(users, userId).None?
    ensures r.Err? ==> r.error == EntityNotFound("User not found: " + IntToString(userId))
    ensures r.Ok? ==> r.value.userId == userId
    ensures r.Ok? ==> r == Ok(UserToResponse(FindUserById(users, userId).value, FindProfileOfUser(profiles, userId)))
  {
    match FindUserById(users, userId)
    case None => Err(EntityNotFound("User not found: " + IntToString(userId)))
    case Some(u) => Ok(UserToResponse(u, FindProfileOfUser(profiles, u.id)))
  }

  /** `findByEmail`: the stored user with the e-mail and its profile, or not-found naming the e-mail. */
  function FindByEmail(users: seq<User>, profiles: seq<Profile>, email: string): (r: Result<UserResponse, Exception>)
    ensures r.Err? <==> FindUserByEmail(users, email).None?
    ensures r.Err? ==> r.error == EntityNotFound("User not found: " + email)
    ensures r.Ok? ==> r.value.email == email
    ensures r.Ok? ==>
      var u := FindUserByEmail(users, email).value;
      r == Ok(UserToResponse(u, FindProfileOfUser(profiles, u.id)))
  {
    match FindUserByEmail(users, email)
    case None => Err(EntityNotFound("User not found: " + email))
    case Some(u) => Ok(UserToResponse(u, FindProfileOfUser(profiles, u.id)))
  }

  /**
    A user `create` has just saved is read back by `findById` exactly as
    `create` answered it: the new id is not taken by an older row, and no older
    profile belongs to it.
  */
  twostate lemma CreatedUserIsFound(db: Database, encoder: PasswordEncoder, req: UserRequest, new r: Result<UserResponse, Exception>)
    requires old(db.Valid())
    requires CreateEffect(db, encoder, req, r) && r.Ok?
    ensures FindById(db.users, db.profiles, r.value.userId) == r
  {
    var roles := AssignedRoles(old(db.roles), [], req.roles).value;
    var saved := NewUser(encoder, req, roles).(id := old(db.nextUserId));
    var profile := DefaultProfile(saved, req).(id := old(db.nextProfileId));
    FirstAppend(old(db.users), saved, (u: User) => u.id == saved.id);
    FirstAppend(old(db.profiles), profile, (p: Profile) => p.userId == saved.id);
  }
}
