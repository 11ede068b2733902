/** AuthController: the auth routes. Only login maps errors; signup and refresh-token pass
    the service's result and errors through. Every route here is a POST except verify-token,
    so Nest answers success with 201, and verify-token with 200. */
module AuthApi {
  import opened Wrappers
  import opened Errors
  import opened Users
  import opened Auth
  import opened Jwt

  datatype Message = Message(message: string)

  const LoggedOut: Message := Message("Logged out successfully")

  /** `try { return await login(...) } catch { throw new UnauthorizedException() }`. */
  function LoginOutcome(outcome: Result<TokenPair, Error>): (r: Result<TokenPair, Error>)
    ensures outcome.Success? ==> r == outcome
    ensures outcome.Failure? ==> r == Failure(DefaultUnauthorized)
  {
    match outcome
    case Success(_) => outcome
    case Failure(_) => Failure(DefaultUnauthorized)
  }

  /** A failed login is answered 401 whatever the service raised, so the answer does not
      tell an unknown email from a wrong password. */
  lemma LoginFailureIs401(outcome: Result<TokenPair, Error>)
    ensures Respond(CREATED, LoginOutcome(outcome)).status == if outcome.Success? then 201 else 401
    ensures LoginOutcome(LoginOutcome(outcome)) == LoginOutcome(outcome)
  {
  }

  /** `const { password, ...user } = req.user; return user`. */
  function VerifyToken(user: AppUser): (r: SafeUser)
    ensures WithPassword(r, user.password) == user
  {
    WithoutPassword(user)
  }

  /** `await logout(req.user.id); return { message }`: a service error propagates. */
  function LogoutOutcome(outcome: Result<(), Error>): (r: Result<Message, Error>)
    ensures outcome.Success? <==> r == Success(LoggedOut)
    ensures outcome.Failure? ==> r == Failure(outcome.error)
  {
    match outcome
    case Success(_) => Success(LoggedOut)
    case Failure(e) => Failure(e)
  }

  class AuthController {
    const authService: AuthService

    constructor (authService: AuthService)
      ensures this.authService == authService
    {
      this.authService := authService;
    }

    /** `POST /auth/login`: 401 for credentials that do not check out, otherwise 201 with the
        pair signed over `{ userId }`. */
    method Login(email: string, password: string) returns (r: Reply<TokenPair>)
      requires authService.Valid()
      modifies authService.userService, authService.jwtService
      ensures authService.Valid()
      ensures var v := Authenticate(old(authService.userService.rows), authService.userService.hash, email, password);
        var signer := authService.jwtService.signer;
        var issued := old(authService.jwtService.issued);
        && (v.None? ==>
              && r == Reply(401, Failure(DefaultUnauthorized))
              && authService.userService.rows == old(authService.userService.rows))
        && (v.Some? ==>
              && r == Reply(CREATED, Success(TokenPair(
                   signer(UserIdClaim(v.value.id), OneHour, issued),
                   signer(UserIdClaim(v.value.id), ThirtyDays, issued + 1))))
              && authService.userService.rows == WithRefreshToken(old(authService.userService.rows), v.value.id, Some(r.body.value.refreshToken)))
    {
      var outcome := authService.Login(email, password);
      return Respond(CREATED, LoginOutcome(outcome));
    }

    /** `POST /auth/signup` as the service writes it: a Conflict reaches the client as 409; a
        new email is always stored, with the password's digest hashed again, and the answer is
        201 only when that digest of a digest equals the digest, else 401. */
    method Signup(email: string, password: string) returns (r: Reply<TokenPair>)
      requires authService.Valid()
      modifies authService.userService, authService.jwtService
      ensures authService.Valid()
      ensures Lookup(old(authService.userService.rows), EmailKey(email)).Some? ==>
        r == Reply(409, Failure(Conflict("User already exists"))) && authService.userService.rows == old(authService.userService.rows)
      ensures Lookup(old(authService.userService.rows), EmailKey(email)).None? ==>
        var hash := authService.userService.hash;
        var signer := authService.jwtService.signer;
        var issued := old(authService.jwtService.issued);
        var id := old(authService.userService.nextId);
        && (hash(hash(password)) == hash(password) ==>
              && r == Reply(CREATED, Success(TokenPair(
                   signer(UserIdClaim(id), OneHour, issued),
                   signer(UserIdClaim(id), ThirtyDays, issued + 1))))
              && authService.userService.rows == old(authService.userService.rows) +
                   [AppUser(id, email, hash(hash(password)), Some(r.body.value.refreshToken))])
        && (hash(hash(password)) != hash(password) ==>
              && r == Reply(401, Failure(DefaultUnauthorized))
              && authService.userService.rows == old(authService.userService.rows) + [AppUser(id, email, hash(hash(password)), None)])
    {
      var outcome := authService.SignupAsWritten(email, password);
      return Respond(CREATED, outcome);
    }

    /** `POST /auth/signup` over the service's signup with the password hashed once: 409 for a
        taken email, otherwise 201 with the new user's pair. */
    method SignupCorrected(email: string, password: string) returns (r: Reply<TokenPair>)
      requires authService.Valid()
      modifies authService.userService, authService.jwtService
      ensures authService.Valid()
      ensures Lookup(old(authService.userService.rows), EmailKey(email)).Some? ==>
        r == Reply(409, Failure(Conflict("User already exists"))) && authService.userService.rows == old(authService.userService.rows)
      ensures Lookup(old(authService.userService.rows), EmailKey(email)).None? ==>
        var signer := authService.jwtService.signer;
        var issued := old(authService.jwtService.issued);
        var id := old(authService.userService.nextId);
        && r == Reply(CREATED, Success(TokenPair(
             signer(UserIdClaim(id), OneHour, issued),
             signer(UserIdClaim(id), ThirtyDays, issued + 1))))
        && authService.userService.rows == old(authService.userService.rows) +
             [AppUser(id, email, authService.userService.hash(password), Some(r.body.value.refreshToken))]
    {
      var outcome := authService.Signup(email, password);
      return Respond(CREATED, outcome);
    }

    /** `POST /auth/refresh-token`: 401 for a token no user holds, otherwise 201 with a pair
        signed over `{ email }`. */
    method RefreshToken(refreshToken: string) returns (r: Reply<TokenPair>)
      requires authService.Valid()
      modifies authService.userService, authService.jwtService
      ensures authService.Valid()
      ensures var holder := Lookup(old(authService.userService.rows), TokenKey(refreshToken));
        var signer := authService.jwtService.signer;
        var issued := old(authService.jwtService.issued);
        && (holder.None? ==>
              r == Reply(401, Failure(Unauthorized("Invalid refresh token"))) && authService.userService.rows == old(authService.userService.rows))
        && (holder.Some? ==>
              && r == Reply(CREATED, Success(TokenPair(
                   signer(EmailClaim(holder.value.email), ModuleDefault, issued),
                   signer(EmailClaim(holder.value.email), ThirtyDays, issued + 1))))
              && authService.userService.rows == WithRefreshToken(old(authService.userService.rows), holder.value.id, Some(r.body.value.refreshToken)))
    {
      var outcome := authService.RefreshToken(refreshToken);
      return Respond(CREATED, outcome);
    }

    /** `POST /auth/logout` for the user the guard put on the request. */
    method Logout(user: AppUser) returns (r: Reply<Message>)
      requires authService.Valid()
      modifies authService.userService
      ensures authService.Valid()
      ensures r == Reply(CREATED, Success(LoggedOut))
      ensures authService.userService.rows == WithRefreshToken(old(authService.userService.rows), user.id, None)
    {
      authService.Logout(user.id);
      return Respond(CREATED, LogoutOutcome(Success(())));
    }
  }
}
