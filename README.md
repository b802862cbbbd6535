# mediaflow-user-service: authentication and authorization core in Dafny

This project models the authentication and authorization logic of the
mediaflow user service, a Spring Boot REST service for user accounts,
profiles and roles, and proves what that logic guarantees.

- **Access decision** (`AuthenticationService`). A caller may act on the
  resources of a user id when it is that user, or when it holds a role named
  ADMIN in any letter case. The caller's roles are read from the store on
  every call.
- **Role assignment** (`UserServiceImpl.create` / `update`). Default role 1
  is always kept. Unknown role ids are refused. ADMIN and MODERATOR are
  refused unless the account already holds that role id. Duplicate ids are
  dropped, keeping the first.
- **Account operations**: registration, update, deletion and the
  credential check of login, over a database of users, roles and profiles.
- **Bearer-token filter** (`JwtAuthenticationFilter`). It authenticates a
  request from an `Authorization: Bearer <token>` header.
- **401 entry point** (`JwtAuthenticationEntryPoint`). It chooses a Spanish
  message from keywords in the failure message.
- **User details** (`CustomUserDetailsService`). Each role becomes the
  authority `ROLE_` + upper-cased name.
- **Controller guards** (`UserController`, `ProfileController`). A denied
  caller gets 403 and no service is called.
- **Exception-to-response table** (`RestExceptionHandler`).

Modules, one per file:

- `Wrappers`: Option, Result and Outcome; first-match search.
- `Text`: ASCII upper-casing, `equalsIgnoreCase`, `isBlank`, `startsWith`,
  `contains`, and integer-to-decimal text.
- `Domain`: entities, DTOs, exceptions and responses.
- `Store`: the database class standing for the three JPA repositories.
- `AuthenticationService`, `UserDetailsService`, `UserService`, `JwtFilter`,
  `EntryPoint`, `ExceptionHandler`, `UserController`, `ProfileController`:
  one each for the corresponding Java class.

How Java constructs are represented:

- A thrown exception is an `Err` or `Fail` value.
- A null reference is `None`.
- The security context and the servlet response are classes updated in place.
- The password encoder and the token service are records of functions about
  which nothing is assumed.

The model follows the code where it departs from the standards it touches:

- The bearer prefix test is case-sensitive (`"Bearer "` exactly), although
  section 2.1 of RFC 7235 makes the authentication scheme case-insensitive.
- The 401 and 400 message texts are chosen by case-sensitive substring tests.

## Model

| member | source | states |
|---|---|---|
| AuthenticationService.GetCurrentUserEmail | src/main/java/com/mediaflow/api/service/AuthenticationService.java:22-28 | succeeds exactly for a present, authenticated authentication and yields its name; otherwise `IllegalStateException("No hay usuario autenticado")` |
| AuthenticationService.GetCurrentUser | src/main/java/com/mediaflow/api/service/AuthenticationService.java:33-37 | succeeds exactly for an authenticated caller whose e-mail is stored, yielding that stored user; otherwise `IllegalStateException` when unauthenticated and `EntityNotFoundException("Usuario autenticado no encontrado")` when the e-mail is not stored |
| AuthenticationService.IsOwner | src/main/java/com/mediaflow/api/service/AuthenticationService.java:42-51 | fails exactly when the current user cannot be found; otherwise true iff the stored caller's id is the given id |
| AuthenticationService.AnyRoleNamed | src/main/java/com/mediaflow/api/service/AuthenticationService.java:58-59 | the `anyMatch` is true iff some role's name equals the given name ignoring case |
| AuthenticationService.HasRole | src/main/java/com/mediaflow/api/service/AuthenticationService.java:56-60 | fails exactly when the current user cannot be found; otherwise true iff one of the caller's stored roles is named the given name ignoring case |
| AuthenticationService.IsAdmin | src/main/java/com/mediaflow/api/service/AuthenticationService.java:65-67 | fails exactly when the current user cannot be found; otherwise true iff one of the caller's stored role names upper-cases to ADMIN |
| AuthenticationService.CanAccess | src/main/java/com/mediaflow/api/service/AuthenticationService.java:73-75 | propagates the failure to find the current user; otherwise answers owner-or-admin for the stored caller (its cases are spelled out by `CanAccessDecision`) |
| AuthenticationService.ValidateAccess | src/main/java/com/mediaflow/api/service/AuthenticationService.java:80-84 | propagates the failure to find the current user; otherwise passes for an owner or admin and throws `SecurityException("No tienes permiso para acceder a este recurso")` for anyone else |
| AuthenticationService.CanAccessDecision | src/main/java/com/mediaflow/api/service/AuthenticationService.java:22-75 | `canAccess` fails when unauthenticated, fails with not-found ("Usuario autenticado no encontrado") for an unknown e-mail, and otherwise answers exactly "owner or holds ADMIN" for the record stored under the caller's e-mail |
| AuthenticationService.SelfAccess | src/main/java/com/mediaflow/api/service/AuthenticationService.java:49-75 | the caller may always act on their own id, whatever their roles |
| AuthenticationService.AdminOverride | src/main/java/com/mediaflow/api/service/AuthenticationService.java:56-75 | a caller holding a role whose upper-cased name is ADMIN may act on every id |
| AuthenticationService.DenyByDefault | src/main/java/com/mediaflow/api/service/AuthenticationService.java:49-75 | for another user's id and no ADMIN role the answer is false; other roles such as MODERATOR grant nothing |
| AuthenticationService.HasRoleMeaning | src/main/java/com/mediaflow/api/service/AuthenticationService.java:56-60 | `hasRole(r)` is true iff some stored role name upper-cases to the upper-cased `r` |
| AuthenticationService.DecisionIgnoresAuthorities | src/main/java/com/mediaflow/api/service/AuthenticationService.java:33-58 | two authentications with the same name get the same decision, whatever authorities they carry |
| AuthenticationService.RoleChangeTakesEffect | src/main/java/com/mediaflow/api/service/AuthenticationService.java:33-58 | after the caller's stored roles are replaced, the decision is the one for the new roles |
| AuthenticationService.FailsClosedWithoutAuthentication | src/main/java/com/mediaflow/api/service/AuthenticationService.java:22-84 | with no authentication or an unauthenticated one, `isOwner`, `hasRole`, `canAccess` and `validateAccess` all fail instead of answering |
| AuthenticationService.ValidateAccessMatchesCanAccess | src/main/java/com/mediaflow/api/service/AuthenticationService.java:80-84 | `validateAccess` throws `SecurityException` iff `canAccess` answers false, and passes iff it answers true |
| UserDetailsService.Authorities | src/main/java/com/mediaflow/api/service/CustomUserDetailsService.java:28-30 | the authority set holds exactly `ROLE_` + upper-cased name for each role |
| UserDetailsService.LoadUserByUsername | src/main/java/com/mediaflow/api/service/CustomUserDetailsService.java:21-36 | fails with `UsernameNotFoundException("Usuario no encontrado: " + email)` exactly when no user has the e-mail; otherwise username is the stored e-mail, password the stored hash, authorities those of the roles, and the account is non-expired, non-locked, credentials non-expired and enabled |
| UserDetailsService.SameAuthorityIgnoringCase | src/main/java/com/mediaflow/api/service/CustomUserDetailsService.java:29 | role names equal ignoring case grant the same authority |
| UserDetailsService.AuthoritiesIgnoreCase | src/main/java/com/mediaflow/api/service/CustomUserDetailsService.java:28-30 | role lists whose names agree up to letter case grant the same authority set |
| UserDetailsService.RoleGateAgreesWithHasRole | src/main/java/com/mediaflow/api/service/CustomUserDetailsService.java:28-30 | `ROLE_` + upper(name) is among the authorities iff the roles hold that name ignoring case, i.e. the authority check and `hasRole` agree |
| UserService.AdmitRole | src/main/java/com/mediaflow/api/service/UserServiceImpl.java:75-85 | a requested id is admitted iff it is stored and its role is unrestricted or already held, and then yields the stored role |
| UserService.RequestedRoles | src/main/java/com/mediaflow/api/service/UserServiceImpl.java:67-87 | the loop over the requested ids, stopping at the first exception; what it appends are stored roles, at most one per id (its meaning is `RequestedRolesMeaning`) |
| UserService.AssignedRoles | src/main/java/com/mediaflow/api/service/UserServiceImpl.java:59-92 | fails with "Default role not found" when role 1 is not stored; a built list starts with role 1 and holds only stored roles (the full meaning is `AssignedRolesMeaning`) |
| UserService.DistinctById | src/main/java/com/mediaflow/api/service/UserServiceImpl.java:89-92 | deduplication keeps only input roles, keeps one role for every input id, leaves no two roles with one id, and keeps the first role first |
| UserService.DistinctByIdKeepsFirst | src/main/java/com/mediaflow/api/service/UserServiceImpl.java:90-91 | the role kept for an id is the first one in the input with that id (the merge function keeps the first) |
| UserService.RequestedRolesErrorPersists | src/main/java/com/mediaflow/api/service/UserServiceImpl.java:68-86 | once the loop has thrown on a prefix of the request, the whole request throws the same exception |
| UserService.RequestedRolesMeaning | src/main/java/com/mediaflow/api/service/UserServiceImpl.java:67-87 | the loop completes iff every requested id other than 1 is admissible; it then appends exactly admitted requested roles and covers every requested id |
| UserService.AssignedRolesMeaning | src/main/java/com/mediaflow/api/service/UserServiceImpl.java:59-161 | the role list is built iff role 1 is stored and every request is admissible; it starts with role 1, has no duplicate ids, holds every requested id, and holds nothing but stored requested roles, restricted ones only when already held |
| UserService.FirstRefusalWins | src/main/java/com/mediaflow/api/service/UserServiceImpl.java:68-158 | the first refused id in request order decides the exception: `Role not found: <id>` for an unknown id, `Cannot assign restricted role: ...` for a restricted one |
| UserService.CreateRefusesRestricted | src/main/java/com/mediaflow/api/service/UserServiceImpl.java:78-83 | at registration a request naming a restricted role other than id 1 fails |
| UserService.RestrictedFailureIsIllegalArgument | src/main/java/com/mediaflow/api/service/UserServiceImpl.java:75-154 | when every requested id is stored, a failing role loop fails with `IllegalArgumentException` |
| UserService.UpdateWithoutRolesKeepsDefaultOnly | src/main/java/com/mediaflow/api/service/UserServiceImpl.java:128-161 | an update naming no roles leaves the account with role 1 only |
| UserService.BuildRoleList | src/main/java/com/mediaflow/api/service/UserServiceImpl.java:59-161 | the imperative role loop (default role, skip id 1, look up, refuse restricted, append, deduplicate) returns exactly the specified role list or exception |
| UserService.LanguageOrDefault | src/main/java/com/mediaflow/api/service/UserServiceImpl.java:98-100 | the profile language is the request's when non-null and non-blank, otherwise "es" |
| UserService.UpdatedFields | src/main/java/com/mediaflow/api/service/UserServiceImpl.java:122-126 | `copyToEntity` replaces only name, e-mail and birth date; id and roles are kept; the hash is replaced by `encode(password)` only for a non-blank password |
| UserService.Create | src/main/java/com/mediaflow/api/service/UserServiceImpl.java:54-115 | a refused role leaves the database unchanged; a taken e-mail fails with the unique-constraint violation and changes nothing; otherwise the user is appended with the next id and a default profile (user's name, chosen language, default avatar and bio) is created |
| UserService.Update | src/main/java/com/mediaflow/api/service/UserServiceImpl.java:118-173 | an unknown id fails with `User not found: <id>` and a refused role with its exception, both with nothing written; otherwise the profile language is saved when given, then the user row is replaced unless the new e-mail is taken |
| UserService.Delete | src/main/java/com/mediaflow/api/service/UserServiceImpl.java:176-181 | an unknown id fails with not-found and changes nothing; otherwise exactly the user's row and its profile are removed |
| UserService.Login | src/main/java/com/mediaflow/api/service/UserServiceImpl.java:184-191 | an unknown e-mail fails with `EntityNotFoundException("Invalid credentials")`, a non-matching password with `IllegalArgumentException("Invalid credentials")`; otherwise the stored record is returned unchanged |
| UserService.FindById | src/main/java/com/mediaflow/api/service/UserServiceImpl.java:40-44 | fails exactly when no user has the id, with `EntityNotFoundException("User not found: " + id)`; otherwise answers that stored user with its profile through `UserMapper.toResponse` |
| UserService.FindByEmail | src/main/java/com/mediaflow/api/service/UserServiceImpl.java:47-51 | fails exactly when no user has the e-mail, with `EntityNotFoundException("User not found: " + email)`; otherwise answers that stored user with its profile through `UserMapper.toResponse` |
| UserService.CreatedUserIsFound | src/main/java/com/mediaflow/api/service/UserServiceImpl.java:40-44 | a user `create` has just saved is read back by `findById` exactly as `create` answered it (new id, its fields, roles and default profile) |
| JwtFilter.BearerToken | src/main/java/com/mediaflow/api/configuration/JwtAuthenticationFilter.java:39-46 | a token is taken iff the header is present and starts with exactly `Bearer `, and the header is then `Bearer ` followed by the token |
| JwtFilter.FilteredAuthentication | src/main/java/com/mediaflow/api/configuration/JwtAuthenticationFilter.java:39-70 | the authentication after the filter is the one the request had, or, only when it had none and carried a bearer header, a new authenticated one (its cases are the lemmas below) |
| JwtFilter.DoFilterInternal | src/main/java/com/mediaflow/api/configuration/JwtAuthenticationFilter.java:29-71 | the context ends as the filter's decision says, and the chain is called exactly once, with the context as set |
| JwtFilter.NoBearerNoChange | src/main/java/com/mediaflow/api/configuration/JwtAuthenticationFilter.java:39-43 | without a bearer header the context is left as it was |
| JwtFilter.LowerCaseSchemeIgnored | src/main/java/com/mediaflow/api/configuration/JwtAuthenticationFilter.java:39 | a lower-case `bearer ` header authenticates nothing |
| JwtFilter.ExistingAuthenticationKept | src/main/java/com/mediaflow/api/configuration/JwtAuthenticationFilter.java:52 | an authentication already present is never replaced |
| JwtFilter.NewAuthenticationIsJustified | src/main/java/com/mediaflow/api/configuration/JwtAuthenticationFilter.java:49-62 | a new authentication comes only from a bearer token whose subject is a stored user and which the token service accepts for that user's details; it carries that user's freshly loaded authorities |
| JwtFilter.ValidTokenAuthenticates | src/main/java/com/mediaflow/api/configuration/JwtAuthenticationFilter.java:46-62 | conversely, a valid token for a stored user on an unauthenticated request authenticates it |
| JwtFilter.ExceptionsSwallowed | src/main/java/com/mediaflow/api/configuration/JwtAuthenticationFilter.java:48-70 | an exception from extraction, lookup or validation leaves the context as it was, and the request still proceeds |
| JwtFilter.FilterChain.DoFilter | src/main/java/com/mediaflow/api/configuration/JwtAuthenticationFilter.java:41-70 | the downstream chain receives the request once, as authenticated as it is at that point |
| EntryPoint.AuthFailureMessage | src/main/java/com/mediaflow/api/configuration/JwtAuthenticationEntryPoint.java:51-60 | the message is one of the three fixed texts or "Error de autenticación: " + the failure message; which one, `AuthFailureMessageChoice` states |
| EntryPoint.AuthFailureMessageChoice | src/main/java/com/mediaflow/api/configuration/JwtAuthenticationEntryPoint.java:51-60 | the expiry text is chosen iff the message contains "expired", the invalid text iff it contains "invalid" but not "expired", the malformed text iff only "malformed" occurs, and otherwise the result is exactly "Error de autenticación: " followed by the message |
| EntryPoint.Commence | src/main/java/com/mediaflow/api/configuration/JwtAuthenticationEntryPoint.java:34-66 | status 401, content type application/json, UTF-8, and a body with exactly timestamp, the failure message as code, the chosen message, and the request path |
| EntryPoint.HandleSecurityException | src/main/java/com/mediaflow/api/configuration/JwtAuthenticationEntryPoint.java:26-31 | 403 with code FORBIDDEN and the exception's message |
| Domain.ErrorBody | src/main/java/com/mediaflow/api/controller/RestExceptionHandler.java:49-55 | the `error` map has exactly timestamp, code and message, holding the given values |
| Domain.Forbidden | src/main/java/com/mediaflow/api/controller/UserController.java:195-201 | `buildErrorResponse` under a 403: exactly timestamp, code FORBIDDEN and the given message |
| ExceptionHandler.FieldMessagesKeys | src/main/java/com/mediaflow/api/controller/RestExceptionHandler.java:41-45 | the fields map names exactly the fields that have an error |
| ExceptionHandler.FieldMessagesLastWins | src/main/java/com/mediaflow/api/controller/RestExceptionHandler.java:42-44 | each field maps to the message of the last error reported for it |
| ExceptionHandler.HandleValidation | src/main/java/com/mediaflow/api/controller/RestExceptionHandler.java:38-47 | the loop yields 400 with code VALIDATION_ERROR, message "Validation failed" and the fields map |
| ExceptionHandler.NotReadableMessageChoice | src/main/java/com/mediaflow/api/controller/RestExceptionHandler.java:121-135 | the date text iff the message contains "LocalDate", the syntax text iff it contains "JSON parse error" but not "LocalDate", the generic text otherwise |
| ExceptionHandler.Handle | src/main/java/com/mediaflow/api/controller/RestExceptionHandler.java:28-135 | an exception gets a response exactly when its class has a handler here |
| ExceptionHandler.HandleStatus | src/main/java/com/mediaflow/api/controller/RestExceptionHandler.java:28-135 | 404 exactly for not-found and no-resource, 409 for data integrity, 401 for both authentication handlers, 405 for an unsupported method, 400 for the five request-shape kinds; the error-map handlers carry a code and the others only an `error` entry |
| ExceptionHandler.HandleCarriesMessage | src/main/java/com/mediaflow/api/controller/RestExceptionHandler.java:28-70 | the not-found, conflict and authentication responses carry the exception's own message under codes NOT_FOUND, CONFLICT and AUTHENTICATION_FAILED |
| ExceptionHandler.Respond | src/main/java/com/mediaflow/api/controller/RestExceptionHandler.java:25-26 | a controller's response passes through; a thrown exception gets the handler's answer |
| UserController.UserLocationsDistinct | src/main/java/com/mediaflow/api/controller/UserController.java:70 | users with different ids get different `Location` headers |
| UserController.CreatedResponse | src/main/java/com/mediaflow/api/controller/UserController.java:68-71 | a registered user is answered 201 with `Location` `/api/v1/users/<id>` and the user as body |
| UserController.Register | src/main/java/com/mediaflow/api/controller/UserController.java:66-72 | the registration effect of the service, answered 201 with the new user's location |
| UserController.UpdateAccount | src/main/java/com/mediaflow/api/controller/UserController.java:83-94 | a denied caller gets 403 "No tienes permiso para actualizar esta cuenta" and the database is unchanged; a failing check propagates unchanged; only an allowed caller reaches the service update |
| UserController.DeleteAccount | src/main/java/com/mediaflow/api/controller/UserController.java:104-113 | a denied caller gets 403 and nothing changes; an allowed one gets the service deletion and 204 with no body |
| UserController.GetUserById | src/main/java/com/mediaflow/api/controller/UserController.java:183-192 | a failing access check propagates; a denied caller gets 403 "No tienes permiso para ver esta información" whether or not the id exists; an allowed caller gets 200 with `findById`'s user or its not-found |
| UserController.OwnerReadsOwnRecord | src/main/java/com/mediaflow/api/controller/UserController.java:183-192 | every authenticated, stored caller gets 200 for their own id |
| UserController.Me | src/main/java/com/mediaflow/api/controller/UserController.java:169-173 | fails exactly when unauthenticated or the e-mail is not stored, with the exception of `getCurrentUserEmail` or `findByEmail`; otherwise 200 with `findByEmail`'s record of the authenticated e-mail |
| UserController.MeIsOwnRecord | src/main/java/com/mediaflow/api/controller/UserController.java:169-192 | with unique ids and e-mails, `/me` answers exactly what `getUserById` answers the caller for their own id: 200 with the stored record and its profile |
| UserController.LoginClaims | src/main/java/com/mediaflow/api/controller/UserController.java:134-138 | the token claims are exactly `roles` (the authorities) and `userId` (the stored id) |
| UserController.Login | src/main/java/com/mediaflow/api/controller/UserController.java:122-160 | succeeds exactly for a stored e-mail with a matching password, failing otherwise with the service's exception; the token is generated over the user's details and claims, the type is "Bearer", expiresIn is the configured expiration, and the roles are the stored role names |
| UserController.WrongPasswordIsUnauthorized | src/main/java/com/mediaflow/api/controller/UserController.java:130 | a wrong password for a stored e-mail is answered 401 AUTHENTICATION_FAILED "Invalid credentials" |
| UserController.UnknownEmailIsNotFound | src/main/java/com/mediaflow/api/controller/UserController.java:130 | an unknown e-mail is answered 404 NOT_FOUND "Invalid credentials" |
| UserController.RestrictedRegistrationIsUnauthorized | src/main/java/com/mediaflow/api/controller/UserController.java:68 | a registration asking for a restricted role, with all ids stored, fails and is answered 401 |
| UserController.DuplicateEmailIsConflict | src/main/java/com/mediaflow/api/controller/UserController.java:66-72 | a registration whose roles are admitted but whose e-mail is already stored writes nothing and is answered 409 CONFLICT with the unique-constraint message |
| ProfileController.CopyToEntity | src/main/java/com/mediaflow/api/service/ProfileServiceImpl.java:24 | the four editable fields come from the request; id and owner are kept |
| ProfileController.ServiceUpdate | src/main/java/com/mediaflow/api/service/ProfileServiceImpl.java:21-27 | an unknown id fails with `Profile not found: <id>` and nothing changes; otherwise the copied profile replaces the stored one |
| ProfileController.ServiceDelete | src/main/java/com/mediaflow/api/service/ProfileServiceImpl.java:30-35 | an unknown id fails with not-found and nothing changes; otherwise exactly that profile is removed |
| ProfileController.ProfileAccessDecision | src/main/java/com/mediaflow/api/controller/ProfileController.java:44-64 | an unknown profile is not-found before access is considered; a found one is decided by owner-or-admin on its owning user |
| ProfileController.ProfileIdIsNotOwnership | src/main/java/com/mediaflow/api/controller/ProfileController.java:48-64 | the profile's own id plays no part: a non-admin whose id equals the profile id but who does not own it is refused |
| ProfileController.UpdateProfile | src/main/java/com/mediaflow/api/controller/ProfileController.java:39-54 | not-found or a failing check propagate with nothing changed; a denied caller gets 403 and nothing changes; an allowed one gets 200 with the updated profile |
| ProfileController.DeleteProfile | src/main/java/com/mediaflow/api/controller/ProfileController.java:58-71 | not-found or a failing check propagate with nothing changed; a denied caller gets 403; an allowed one gets 204 with that profile removed |
| Store.Database.InsertUser | src/main/java/com/mediaflow/api/service/UserServiceImpl.java:95 | a new user gets the next generated id; a taken e-mail violates the unique constraint and changes nothing |
| Store.Database.UpdateUser | src/main/java/com/mediaflow/api/service/UserServiceImpl.java:171 | the user row with the id is overwritten; an e-mail taken by another user violates the unique constraint and changes nothing |
| Store.Database.DeleteUser | src/main/java/com/mediaflow/api/service/UserServiceImpl.java:180 | removes the user's rows and, by cascade, its profile |
| Store.Database.InsertProfile | src/main/java/com/mediaflow/api/service/UserServiceImpl.java:111 | a new profile gets the next generated profile id and is appended; nothing else changes |
| Store.Database.UpdateProfile | src/main/java/com/mediaflow/api/service/ProfileServiceImpl.java:25 | the profile row with the profile's id is overwritten; nothing else changes |
| Store.Database.DeleteProfile | src/main/java/com/mediaflow/api/service/ProfileServiceImpl.java:34 | exactly the profile rows with the id are removed; nothing else changes |
| Domain.StoredUserIsFound | src/main/java/com/mediaflow/api/service/UserServiceImpl.java:40-51 | with unique ids and e-mails, a stored user is the one `findById` and `findByEmail` find |

## Left out

- **Case mapping.** Upper-casing and `equalsIgnoreCase` are modelled for ASCII letters only. Java maps all of Unicode, and `toUpperCase()` depends on the default locale.
- **Authentication manager.** `authenticationManager.authenticate` at the start of login (UserController.java:124-127) is left out. Its `DaoAuthenticationProvider` (SecurityConfig.java:94-100) checks the same e-mail and password through `CustomUserDetailsService` and the same encoder, and a request reaches `service.login` only after it has accepted them. `UserController.Login`, `WrongPasswordIsUnauthorized` and `UnknownEmailIsNotFound` therefore describe the service-level path only; the endpoint's own answer to bad credentials is the provider's `BadCredentialsException`, which is not modelled.
- **Token service and password encoder.** Both are parameters about which nothing is assumed. Token signing, decoding, the clock and hashing are not modelled. `getExpirationTime` is a number in the token-service record.
- **Security context.** The thread-bound `SecurityContextHolder` is an explicit context object (in the filter) or value (in the service and controllers).
- **Request details.** `WebAuthenticationDetailsSource` details attached to the token are not modelled.
- **Logging.** `System.out`/`System.err` logging is not modelled.
- **Timestamps.** `Instant.now()` is a `now` parameter.
- **JSON output.** JSON serialisation by `ObjectMapper` and writing to the response writer are not modelled. The body is the map that would be serialised.
- **Role order.** The role order after deduplication is the first-occurrence order. `create` takes the values of a `HashMap`, and `update` the elements of a `HashSet`. Their iteration order is not specified, so the model fixes one order.
- **Null inputs.** Null request fields rejected by bean validation (name, e-mail, password, birth date) are not represented. A null element inside the requested role list (a `NullPointerException` in the Java service) is not represented either. A null failure message in `commence` is not represented.
- **Unique-constraint message.** The message of the unique-constraint failure is a fixed text. The database's own wording is not modelled.
- **Login projection.** The `ARRAY_AGG` role names of the native login query are the stored role names in order. A user with no roles would get a single null name there, which is not modelled.
- **Unhandled exceptions.** Exceptions without a handler in `RestExceptionHandler` (`IllegalStateException`, `SecurityException`, `UsernameNotFoundException`, token failures) have no modelled response. Spring's default error handling applies to them.
- **Route security.** The `SecurityConfig` route table and the `@PreAuthorize` annotations are not modelled. The guards modelled are the ones in the controller bodies.
- **Role table writes.** Role table contents are fixed inputs. `RoleController`/`RoleServiceImpl` writes are not part of this model.
- UserService.Update: the profile write happens before the user save. When that save then fails on a taken e-mail, the model keeps the profile write. In the Java service, the surrounding transaction, if any, would roll it back.
