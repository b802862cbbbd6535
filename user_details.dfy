/**
  `CustomUserDetailsService.loadUserByUsername`: the stored user of an e-mail
  as Spring Security's `UserDetails`, each role name turned into the authority
  `"ROLE_" + name.toUpperCase()`.
*/
module UserDetailsService {
  import opened Wrappers
  import opened Text
  import opened Domain
  import AuthenticationService

  const ROLE_PREFIX := "ROLE_"

  /** The authority a role grants. */
  function Authority(role: Role): string {
    ROLE_PREFIX + Upper(role.name)
  }

  /** The authorities of a list of roles, as the set the built `UserDetails` keeps. */
  function Authorities(roles: seq<Role>): (a: set<string>)
    ensures forall x :: x in a <==> exists role :: role in roles && x == Authority(role)
  {
    set role | role in roles :: Authority(role)
  }

  /** `loadUserByUsername`. */
  function LoadUserByUsername(users: seq<User>, email: string): (r: Result<UserDetails, Exception>)
    ensures r.Err? <==> FindUserByEmail(users, email).None?
    ensures r.Err? ==> r.error == UsernameNotFound("Usuario no encontrado: " + email)
    ensures r.Ok? ==> var u := FindUserByEmail(users, email).value;
      && r.value.username == u.email == email
      && r.value.password == u.passwordHash
      && r.value.authorities == Authorities(u.roles)
      && r.value.accountNonExpired && r.value.accountNonLocked
      && r.value.credentialsNonExpired && r.value.enabled
  {
    match FindUserByEmail(users, email)
    case None => Err(UsernameNotFound("Usuario no encontrado: " + email))
    case Some(u) => Ok(UserDetails(u.email, u.passwordHash, Authorities(u.roles), true, true, true, true))
  }

  /** Role names that differ only in letter case grant one and the same authority. */
  lemma SameAuthorityIgnoringCase(r1: Role, r2: Role)
    requires EqualsIgnoreCase(r1.name, r2.name)
    ensures Authority(r1) == Authority(r2)
  {
  }

  /**
    An authority is determined by the upper-cased name alone: two role lists
    whose names agree position by position up to letter case grant the same set.
  */
  lemma {:induction false} AuthoritiesIgnoreCase(a: seq<Role>, b: seq<Role>)
    requires |a| == |b|
    requires forall i :: 0 <= i < |a| ==> EqualsIgnoreCase(a[i].name, b[i].name)
    ensures Authorities(a) == Authorities(b)
  {
    forall x | x in Authorities(a) ensures x in Authorities(b) {
      var role :| role in a && x == Authority(role);
      var i :| 0 <= i < |a| && a[i] == role;
      assert Authority(b[i]) == x;
    }
    forall x | x in Authorities(b) ensures x in Authorities(a) {
      var role :| role in b && x == Authority(role);
      var i :| 0 <= i < |b| && b[i] == role;
      assert Authority(a[i]) == x;
    }
  }

  /**
    The authority check of a role gate (`"ROLE_ADMIN"` among the authorities)
    and `isAdmin` (a role named ADMIN ignoring case) agree on the same roles.
  */
  lemma {:induction false} RoleGateAgreesWithHasRole(roles: seq<Role>, roleName: string)
    ensures ROLE_PREFIX + Upper(roleName) in Authorities(roles) <==> AuthenticationService.AnyRoleNamed(roles, roleName)
  {
    if ROLE_PREFIX + Upper(roleName) in Authorities(roles) {
      var role :| role in roles && ROLE_PREFIX + Upper(roleName) == Authority(role);
      assert Upper(roleName) == (ROLE_PREFIX + Upper(roleName))[|ROLE_PREFIX|..] == Authority(role)[|ROLE_PREFIX|..] == Upper(role.name);
    }
    if AuthenticationService.AnyRoleNamed(roles, roleName) {
      var role :| role in roles && EqualsIgnoreCase(role.name, roleName);
      assert Authority(role) == ROLE_PREFIX + Upper(roleName);
    }
  }
}
