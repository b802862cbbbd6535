/**
  `JwtAuthenticationFilter.doFilterInternal`: once per request, a bearer token
  in the `Authorization` header may authenticate the request by setting the
  security context; whatever happens, the request goes on down the chain.
*/
module JwtFilter {
  import opened Wrappers
  import opened Text
  import opened Domain
  import UserDetailsService

  const BEARER_PREFIX := "Bearer "

  /** The per-request security context (`SecurityContextHolder.getContext()`). */
  class SecurityContext {
    var authentication: Option<Authentication>

    constructor (initial: Option<Authentication>)
      ensures authentication == initial
    {
      authentication := initial;
    }
  }

  /** The rest of the filter chain; it records the authentication each request reached it with. */
  class FilterChain {
    var passed: seq<Option<Authentication>>

    constructor ()
      ensures passed == []
    {
      passed := [];
    }

    /** `filterChain.doFilter`: hands the request on, as authenticated as it now is. */
    method DoFilter(ctx: SecurityContext)
      modifies this
      ensures passed == old(passed) + [ctx.authentication]
    {
      passed := passed + [ctx.authentication];
    }
  }

  /** The token of an `Authorization` header that starts with `"Bearer "` (exactly that case), after those 7 characters. */
  function BearerToken(header: Option<string>): (t: Option<string>)
    ensures t.Some? <==> header.Some? && StartsWith(header.value, BEARER_PREFIX)
    ensures t.Some? ==> header.value == BEARER_PREFIX + t.value
  {
    if header.None? || !StartsWith(header.value, BEARER_PREFIX) then None
    else Some(header.value[|BEARER_PREFIX|..])
  }

  /** The authentication built from loaded user details: named after the user, carrying its authorities. */
  function AuthenticationOf(details: UserDetails): Authentication {
    Authentication(details.username, true, details.authorities)
  }

  /**
    The body of the `try`: `None` when no authentication is to be set (no
    subject, an authentication already present, or an invalid token), the new
    authentication otherwise, or the exception one of the calls throws.
  */
  function TryAuthenticate(token: string, current: Option<Authentication>, jwt: JwtService, users: seq<User>): Result<Option<Authentication>, Exception> {
    match jwt.extractUsername(token)
    case Err(e) => Err(e)
    case Ok(subject) =>
      if subject.None? || current.Some? then Ok(None)
      else
        match UserDetailsService.LoadUserByUsername(users, subject.value)
        case Err(e) => Err(e)
        case Ok(details) =>
          match jwt.isTokenValid(token, details)
          case Err(e) => Err(e)
          case Ok(valid) => if valid then Ok(Some(AuthenticationOf(details))) else Ok(None)
  }

  /** The authentication the request carries down the chain: the new one if set, otherwise the one it had; exceptions are swallowed. */
  function FilteredAuthentication(header: Option<string>, current: Option<Authentication>, jwt: JwtService, users: seq<User>): (r: Option<Authentication>)
    ensures r == current || (current.None? && r.Some? && r.value.authenticated && BearerToken(header).Some?)
  {
    match BearerToken(header)
    case None => current
    case Some(token) =>
      match TryAuthenticate(token, current, jwt, users)
      case Ok(Some(a)) => Some(a)
      case _ => current
  }

  /** `doFilterInternal`: sets the context as `FilteredAuthentication` says, then continues the chain exactly once. */
  method DoFilterInternal(ctx: SecurityContext, chain: FilterChain, header: Option<string>, jwt: JwtService, users: seq<User>)
    modifies ctx, chain
    ensures ctx.authentication == FilteredAuthentication(header, old(ctx.authentication), jwt, users)
    ensures chain.passed == old(chain.passed) + [ctx.authentication]
  {
    var token := BearerToken(header);
    if token.None? {
      chain.DoFilter(ctx);
      return;
    }
    var jwtToken := token.value;
    var subject := jwt.extractUsername(jwtToken);
    if subject.Ok? && subject.value.Some? && ctx.authentication.None? {
      var details := UserDetailsService.LoadUserByUsername(users, subject.value.value);
      if details.Ok? {
        var valid := jwt.isTokenValid(jwtToken, details.value);
        if valid.Ok? && valid.value {
          ctx.authentication := Some(AuthenticationOf(details.value));
        }
      }
    }
    chain.DoFilter(ctx);
  }

  /** Without a bearer header the context is left as it was. */
  lemma NoBearerNoChange(header: Option<string>, current: Option<Authentication>, jwt: JwtService, users: seq<User>)
    requires header.None? || !StartsWith(header.value, BEARER_PREFIX)
    ensures FilteredAuthentication(header, current, jwt, users) == current
  {
  }

  /** The prefix test is case sensitive: a lower-case `bearer ` header authenticates nothing. */
  lemma LowerCaseSchemeIgnored(token: string, current: Option<Authentication>, jwt: JwtService, users: seq<User>)
    ensures FilteredAuthentication(Some("bearer " + token), current, jwt, users) == current
  {
    assert ("bearer " + token)[0] == 'b';
  }

  /** An authentication already in the context is never replaced. */
  lemma ExistingAuthenticationKept(header: Option<string>, a: Authentication, jwt: JwtService, users: seq<User>)
    ensures FilteredAuthentication(header, Some(a), jwt, users) == Some(a)
  {
  }

  /**
    A new authentication is set only from a bearer token whose subject is a
    stored user and which the token service accepts for that user's details;
    it is named after that e-mail and carries that user's authorities.
  */
  lemma {:induction false} NewAuthenticationIsJustified(header: Option<string>, jwt: JwtService, users: seq<User>)
    requires FilteredAuthentication(header, None, jwt, users).Some?
    ensures var token := BearerToken(header);
      var a := FilteredAuthentication(header, None, jwt, users).value;
      && token.Some?
      && jwt.extractUsername(token.value) == Ok(Some(a.name))
      && FindUserByEmail(users, a.name).Some?
      && a.authorities == UserDetailsService.Authorities(FindUserByEmail(users, a.name).value.roles)
      && jwt.isTokenValid(token.value, UserDetailsService.LoadUserByUsername(users, a.name).value) == Ok(true)
  {
    var token := BearerToken(header).value;
    var subject := jwt.extractUsername(token).value.value;
    assert UserDetailsService.LoadUserByUsername(users, subject).Ok?;
  }

  /** Conversely, a valid token for a stored user on an unauthenticated request authenticates it. */
  lemma ValidTokenAuthenticates(token: string, jwt: JwtService, users: seq<User>, email: string)
    requires jwt.extractUsername(token) == Ok(Some(email))
    requires FindUserByEmail(users, email).Some?
    requires jwt.isTokenValid(token, UserDetailsService.LoadUserByUsername(users, email).value) == Ok(true)
    ensures FilteredAuthentication(Some(BEARER_PREFIX + token), None, jwt, users)
         == Some(AuthenticationOf(UserDetailsService.LoadUserByUsername(users, email).value))
  {
    assert (BEARER_PREFIX + token)[|BEARER_PREFIX|..] == token;
  }

  /** A failing token, an unknown subject or a throwing validation never fails the request: the context is just left alone. */
  lemma ExceptionsSwallowed(header: Option<string>, current: Option<Authentication>, jwt: JwtService, users: seq<User>)
    requires BearerToken(header).Some?
    requires TryAuthenticate(BearerToken(header).value, current, jwt, users).Err?
    ensures FilteredAuthentication(header, current, jwt, users) == current
  {
  }
}
