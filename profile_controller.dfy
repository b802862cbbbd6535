/**
  `ProfileController` and the `ProfileServiceImpl` operations it calls: a
  profile is updated or deleted only by its owning user or an administrator,
  the owner being found through the profile's user, not through its own id.
*/
module ProfileController {
  import opened Wrappers
  import opened Text
  import opened Domain
  import opened Store
  import AuthenticationService

  const UPDATE_FORBIDDEN := "No tienes permiso para actualizar este perfil"
  const DELETE_FORBIDDEN := "No tienes permiso para eliminar este perfil"

  function ProfileNotFound(profileId: int): Exception {
    EntityNotFound("Profile not found: " + IntToString(profileId))
  }

  /** `ProfileMapper.copyToEntity`: the four editable fields replaced, id and owner kept. */
  function CopyToEntity(req: ProfileRequest, p: Profile): (q: Profile)
    ensures q.id == p.id && q.userId == p.userId
    ensures q.displayName == req.displayName && q.preferredLanguage == req.preferredLanguage
    ensures q.avatarUrl == req.avatarUrl && q.bio == req.bio
  {
    p.(displayName := req.displayName, preferredLanguage := req.preferredLanguage, avatarUrl := req.avatarUrl, bio := req.bio)
  }

  /** What `ProfileServiceImpl.update` does to the database and returns. */
  twostate predicate ServiceUpdateEffect(db: Database, profileId: int, req: ProfileRequest, new r: Result<ProfileResponse, Exception>)
    reads db
  {
    match FindProfile(old(db.profiles), profileId)
    case None => r == Err(ProfileNotFound(profileId)) && unchanged(db)
    case Some(existing) =>
      var saved := CopyToEntity(req, existing);
      && r == Ok(ProfileToResponse(saved))
      && db.profiles == ReplaceProfile(old(db.profiles), saved)
      && db.users == old(db.users) && db.roles == old(db.roles)
  }

  /** `ProfileServiceImpl.update`. */
  method ServiceUpdate(db: Database, profileId: int, req: ProfileRequest) returns (r: Result<ProfileResponse, Exception>)
    requires db.Valid()
    modifies db
    ensures db.Valid()
    ensures ServiceUpdateEffect(db, profileId, req, r)
  {
    var existing := FindProfile(db.profiles, profileId);
    if existing.None? {
      return Err(ProfileNotFound(profileId));
    }
    var saved := CopyToEntity(req, existing.value);
    db.UpdateProfile(saved);
    r := Ok(ProfileToResponse(saved));
  }

  /** What `ProfileServiceImpl.delete` does. */
  twostate predicate ServiceDeleteEffect(db: Database, profileId: int, new r: Outcome<Exception>)
    reads db
  {
    if FindProfile(old(db.profiles), profileId).None? then
      r == Fail(ProfileNotFound(profileId)) && unchanged(db)
    else
      && r == Pass
      && db.profiles == RemoveProfiles(old(db.profiles), (p: Profile) => p.id != profileId)
      && db.users == old(db.users) && db.roles == old(db.roles)
  }

  /** `ProfileServiceImpl.delete`: `existsById`, then `deleteById`. */
  method ServiceDelete(db: Database, profileId: int) returns (r: Outcome<Exception>)
    requires db.Valid()
    modifies db
    ensures db.Valid()
    ensures ServiceDeleteEffect(db, profileId, r)
  {
    if FindProfile(db.profiles, profileId).None? {
      return Fail(ProfileNotFound(profileId));
    }
    db.DeleteProfile(profileId);
    r := Pass;
  }

  /** The access decision for a profile: `canAccess` on its owning user's id. */
  function ProfileAccess(auth: Option<Authentication>, users: seq<User>, profiles: seq<Profile>, profileId: int): Result<bool, Exception> {
    match FindProfile(profiles, profileId)
    case None => Err(ProfileNotFound(profileId))
    case Some(p) => AuthenticationService.CanAccess(auth, users, p.userId)
  }

  /**
    An unknown profile id is not-found before access is considered; a found
    profile is decided for the caller exactly as the owner-or-admin rule on
    its owning user says.
  */
  lemma ProfileAccessDecision(auth: Option<Authentication>, users: seq<User>, profiles: seq<Profile>, profileId: int, caller: User)
    requires AuthenticationService.GetCurrentUser(auth, users) == Ok(caller)
    ensures FindProfile(profiles, profileId).None? ==> ProfileAccess(auth, users, profiles, profileId) == Err(ProfileNotFound(profileId))
    ensures FindProfile(profiles, profileId).Some? ==>
      ProfileAccess(auth, users, profiles, profileId) ==
        Ok(AuthenticationService.Allowed(caller, FindProfile(profiles, profileId).value.userId))
  {
    if FindProfile(profiles, profileId).Some? {
      AuthenticationService.CanAccessDecision(auth, users, FindProfile(profiles, profileId).value.userId);
    }
  }

  /** The profile's own id plays no part: a non-admin caller whose id equals the profile id but who does not own it is refused. */
  lemma ProfileIdIsNotOwnership(auth: Option<Authentication>, users: seq<User>, profiles: seq<Profile>, caller: User, p: Profile)
    requires AuthenticationService.GetCurrentUser(auth, users) == Ok(caller)
    requires FindProfile(profiles, p.id) == Some(p) && p.id == caller.id && p.userId != caller.id
    requires !AuthenticationService.AnyRoleNamed(caller.roles, AuthenticationService.ADMIN)
    ensures ProfileAccess(auth, users, profiles, p.id) == Ok(false)
  {
    ProfileAccessDecision(auth, users, profiles, p.id, caller);
  }

  /** A 200 carrying the service's profile, or what the service threw. */
  function ProfileOk(s: Result<ProfileResponse, Exception>): Result<Response, Exception> {
    match s
    case Err(e) => Err(e)
    case Ok(p) => Ok(Response(HTTP_OK, None, ProfileBody(p)))
  }

  /** `update` (PUT /profiles/{profileId}): lookup, owner-or-admin check, then the service. */
  method UpdateProfile(db: Database, auth: Option<Authentication>, profileId: int, req: ProfileRequest, now: string)
    returns (r: Result<Response, Exception>)
    requires db.Valid()
    modifies db
    ensures db.Valid()
    ensures ProfileAccess(auth, old(db.users), old(db.profiles), profileId).Err? ==>
      r == Err(ProfileAccess(auth, old(db.users), old(db.profiles), profileId).error) && unchanged(db)
    ensures ProfileAccess(auth, old(db.users), old(db.profiles), profileId) == Ok(false) ==>
      r == Ok(Forbidden(UPDATE_FORBIDDEN, now)) && unchanged(db)
    ensures ProfileAccess(auth, old(db.users), old(db.profiles), profileId) == Ok(true) ==>
      var saved := CopyToEntity(req, FindProfile(old(db.profiles), profileId).value);
      && r == Ok(Response(HTTP_OK, None, ProfileBody(ProfileToResponse(saved))))
      && db.profiles == ReplaceProfile(old(db.profiles), saved)
      && db.users == old(db.users) && db.roles == old(db.roles)
  {
    var profile := FindProfile(db.profiles, profileId);
    if profile.None? {
      return Err(ProfileNotFound(profileId));
    }
    var allowed := AuthenticationService.CanAccess(auth, db.users, profile.value.userId);
    if allowed.Err? {
      return Err(allowed.error);
    }
    if !allowed.value {
      return Ok(Forbidden(UPDATE_FORBIDDEN, now));
    }
    var updated := ServiceUpdate(db, profileId, req);
    r := ProfileOk(updated);
  }

  /** `delete` (DELETE /profiles/{profileId}): lookup, owner-or-admin check, then the service; 204 once deleted. */
  method DeleteProfile(db: Database, auth: Option<Authentication>, profileId: int, now: string) returns (r: Result<Response, Exception>)
    requires db.Valid()
    modifies db
    ensures db.Valid()
    ensures ProfileAccess(auth, old(db.users), old(db.profiles), profileId).Err? ==>
      r == Err(ProfileAccess(auth, old(db.users), old(db.profiles), profileId).error) && unchanged(db)
    ensures ProfileAccess(auth, old(db.users), old(db.profiles), profileId) == Ok(false) ==>
      r == Ok(Forbidden(DELETE_FORBIDDEN, now)) && unchanged(db)
    ensures ProfileAccess(auth, old(db.users), old(db.profiles), profileId) == Ok(true) ==>
      && r == Ok(Response(HTTP_NO_CONTENT, None, NoBody))
      && db.profiles == RemoveProfiles(old(db.profiles), (p: Profile) => p.id != profileId)
      && db.users == old(db.users) && db.roles == old(db.roles)
  {
    var profile := FindProfile(db.profiles, profileId);
    if profile.None? {
      return Err(ProfileNotFound(profileId));
    }
    var allowed := AuthenticationService.CanAccess(auth, db.users, profile.value.userId);
    if allowed.Err? {
      return Err(allowed.error);
    }
    if !allowed.value {
      return Ok(Forbidden(DELETE_FORBIDDEN, now));
    }
    var outcome := ServiceDelete(db, profileId);
    r := NoContent(outcome);
  }
}
