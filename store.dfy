/**
  The persistence the services write through: the user, role and profile
  repositories over one database. Ids are generated by the database
  (IDENTITY columns), e-mail addresses are unique, and a user's profile is
  removed with the user.
*/
module Store {
  import opened Wrappers
  import opened Domain

  /** The message of the unique-constraint failure the database reports. */
  const DUPLICATE_KEY := "duplicate key value violates unique constraint"

  /** Another stored user already has `u`'s e-mail address. */
  predicate EmailTaken(users: seq<User>, u: User) {
    exists v :: v in users && v.id != u.id && v.email == u.email
  }

  /** `users` with every row whose id is `u.id` replaced by `u`. */
  function ReplaceUser(users: seq<User>, u: User): (r: seq<User>)
    ensures |r| == |users|
    ensures forall i :: 0 <= i < |r| ==> r[i] == if users[i].id == u.id then u else users[i]
  {
    seq(|users|, i requires 0 <= i < |users| => if users[i].id == u.id then u else users[i])
  }

  function ReplaceProfile(profiles: seq<Profile>, p: Profile): (r: seq<Profile>)
    ensures |r| == |profiles|
    ensures forall i :: 0 <= i < |r| ==> r[i] == if profiles[i].id == p.id then p else profiles[i]
  {
    seq(|profiles|, i requires 0 <= i < |profiles| => if profiles[i].id == p.id then p else profiles[i])
  }

  /** The users whose id is not `id`, in their order. */
  function RemoveUser(users: seq<User>, id: int): (r: seq<User>)
    ensures forall u :: u in r <==> u in users && u.id != id
  {
    if users == [] then []
    else if users[0].id == id then RemoveUser(users[1..], id)
    else [users[0]] + RemoveUser(users[1..], id)
  }

  /** Removing rows keeps the users table's columns unique. */
  lemma {:induction false} RemoveUserKeepsUnique(users: seq<User>, id: int)
    requires UniqueUsers(users)
    ensures UniqueUsers(RemoveUser(users, id))
  {
    if users != [] {
      var rest := RemoveUser(users[1..], id);
      RemoveUserKeepsUnique(users[1..], id);
      if users[0].id != id {
        forall v | v in rest ensures users[0].id != v.id && users[0].email != v.email {
          var k :| 0 <= k < |users[1..]| && users[1..][k] == v;
          assert users[k + 1] == v;
        }
        var r := [users[0]] + rest;
        forall i, j | 0 <= i < j < |r| ensures r[i].id != r[j].id && r[i].email != r[j].email {
          assert r[j] == rest[j - 1] && r[j] in rest;
          if i > 0 {
            assert r[i] == rest[i - 1];
          }
        }
      }
    }
  }

  /** The profiles `keep` accepts, in their order. */
  function RemoveProfiles(profiles: seq<Profile>, keep: Profile -> bool): (r: seq<Profile>)
    ensures forall p :: p in r <==> p in profiles && keep(p)
  {
    if profiles == [] then []
    else if keep(profiles[0]) then [profiles[0]] + RemoveProfiles(profiles[1..], keep)
    else RemoveProfiles(profiles[1..], keep)
  }

  class Database {
    var users: seq<User>
    var roles: seq<Role>
    var profiles: seq<Profile>
    var nextUserId: int
    var nextProfileId: int

    /**
      Generated ids are larger than every id handed out before, the users
      table's id and e-mail columns are unique, and every profile belongs to a
      user id already handed out (the profile's foreign key).
    */
    ghost predicate Valid()
      reads this
    {
      && (forall u :: u in users ==> u.id < nextUserId)
      && (forall p :: p in profiles ==> p.id < nextProfileId && p.userId < nextUserId)
      && UniqueUsers(users)
    }

    /** A database with the given role table and no users. */
    constructor (roleTable: seq<Role>)
      ensures Valid()
      ensures users == [] && roles == roleTable && profiles == []
    {
      users, roles, profiles := [], roleTable, [];
      nextUserId, nextProfileId := 1, 1;
    }

    /** `repository.save` of a new user: the database assigns the id. */
    method InsertUser(u: User) returns (r: Result<User, Exception>)
      requires Valid()
      modifies this
      ensures Valid()
      ensures var saved := u.(id := old(nextUserId));
        if EmailTaken(old(users), saved) then
          r == Err(DataIntegrityViolation(DUPLICATE_KEY)) && unchanged(this)
        else
          r == Ok(saved) && users == old(users) + [saved] && nextUserId == old(nextUserId) + 1
          && roles == old(roles) && profiles == old(profiles) && nextProfileId == old(nextProfileId)
    {
      var saved := u.(id := nextUserId);
      if exists v :: v in users && v.id != saved.id && v.email == saved.email {
        return Err(DataIntegrityViolation(DUPLICATE_KEY));
      }
      users := users + [saved];
      nextUserId := nextUserId + 1;
      r := Ok(saved);
    }

    /** `repository.save` of an existing user: the row with its id is overwritten. */
    method UpdateUser(u: User) returns (r: Result<User, Exception>)
      requires Valid()
      modifies this
      ensures Valid()
      ensures if EmailTaken(old(users), u) then
          r == Err(DataIntegrityViolation(DUPLICATE_KEY)) && unchanged(this)
        else
          r == Ok(u) && users == ReplaceUser(old(users), u) && roles == old(roles)
          && profiles == old(profiles) && nextUserId == old(nextUserId) && nextProfileId == old(nextProfileId)
    {
      if exists v :: v in users && v.id != u.id && v.email == u.email {
        return Err(DataIntegrityViolation(DUPLICATE_KEY));
      }
      users := ReplaceUser(users, u);
      r := Ok(u);
    }

    /** `repository.deleteById`: the user goes, and with it (cascade) its profile. */
    method DeleteUser(id: int)
      requires Valid()
      modifies this
      ensures Valid()
      ensures users == RemoveUser(old(users), id)
      ensures profiles == RemoveProfiles(old(profiles), (p: Profile) => p.userId != id)
      ensures roles == old(roles) && nextUserId == old(nextUserId) && nextProfileId == old(nextProfileId)
    {
      RemoveUserKeepsUnique(users, id);
      users := RemoveUser(users, id);
      profiles := RemoveProfiles(profiles, (p: Profile) => p.userId != id);
    }

    /** `profileRepository.save` of a new profile for a saved user: the database assigns the id. */
    method InsertProfile(p: Profile) returns (saved: Profile)
      requires Valid() && p.userId < nextUserId
      modifies this
      ensures Valid()
      ensures saved == p.(id := old(nextProfileId))
      ensures profiles == old(profiles) + [saved] && nextProfileId == old(nextProfileId) + 1
      ensures users == old(users) && roles == old(roles) && nextUserId == old(nextUserId)
    {
      saved := p.(id := nextProfileId);
      profiles := profiles + [saved];
      nextProfileId := nextProfileId + 1;
    }

    /** `profileRepository.save` of an existing profile of a saved user. */
    method UpdateProfile(p: Profile)
      requires Valid() && p.userId < nextUserId
      modifies this
      ensures Valid()
      ensures profiles == ReplaceProfile(old(profiles), p)
      ensures users == old(users) && roles == old(roles)
      ensures nextUserId == old(nextUserId) && nextProfileId == old(nextProfileId)
    {
      profiles := ReplaceProfile(profiles, p);
    }

    /** `profileRepository.deleteById`. */
    method DeleteProfile(id: int)
      requires Valid()
      modifies this
      ensures Valid()
      ensures profiles == RemoveProfiles(old(profiles), (p: Profile) => p.id != id)
      ensures users == old(users) && roles == old(roles)
      ensures nextUserId == old(nextUserId) && nextProfileId == old(nextProfileId)
    {
      profiles := RemoveProfiles(profiles, (p: Profile) => p.id != id);
    }
  }
}
