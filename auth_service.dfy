/** AuthService: credential checks and the refresh-token lifecycle over the user store. */
module Auth {
  import opened Wrappers
  import opened Errors
  import opened Users
  import opened Jwt
  import opened UserStore

  /** The body login, signup and refresh return. */
  datatype TokenPair = TokenPair(accessToken: string, refreshToken: string)

  /** What validateUser computes on a table: the user with that email, stripped of its
      password, when `hash(pass)` is the digest stored for it. */
  function Authenticate(rows: seq<AppUser>, hash: string -> string, email: string, pass: string): Option<SafeUser> {
    match Lookup(rows, EmailKey(email))
    case Some(u) => if u.password == hash(pass) then Some(WithoutPassword(u)) else None
    case None => None
  }

  /** validateUser accepts exactly the (email, password) pairs some row holds, with that
      row's digest, and returns that row minus its password. */
  lemma AuthenticateSpec(rows: seq<AppUser>, hash: string -> string, email: string, pass: string)
    requires UniqueKeys(rows)
    ensures Authenticate(rows, hash, email, pass).Some? <==>
      exists i | 0 <= i < |rows| :: rows[i].email == email && rows[i].password == hash(pass)
    ensures forall i | 0 <= i < |rows| && rows[i].email == email && rows[i].password == hash(pass) ::
      Authenticate(rows, hash, email, pass) == Some(WithoutPassword(rows[i]))
  {
    forall i | 0 <= i < |rows| && rows[i].email == email
      ensures Find(rows, EmailKey(email)) == Some(i)
    {
      LookupUnique(rows, i, EmailKey(email));
    }
  }

  /** A digest is never accepted as its own password's digest when the hash is injective and
      moves the password: under those conditions `compare(p, hash(hash(p)))` is false. */
  lemma DigestOfDigestRejected(hash: string -> string, p: string)
    requires forall a, b :: hash(a) == hash(b) ==> a == b
    requires hash(p) != p
    ensures hash(hash(p)) != hash(p)
  {
  }

  class AuthService {
    const userService: UserService
    const jwtService: JwtService

    ghost predicate Valid()
      reads this, userService
    {
      userService.Valid()
    }

    constructor (userService: UserService, jwtService: JwtService)
      ensures this.userService == userService && this.jwtService == jwtService
    {
      this.userService := userService;
      this.jwtService := jwtService;
    }

    /** `validateUser(email, pass)`. */
    method ValidateUser(email: string, pass: string) returns (r: Option<SafeUser>)
      requires Valid()
      ensures r == Authenticate(userService.rows, userService.hash, email, pass)
    {
      var user := userService.FindOneByEmail(email);
      if user.Some? && user.value.password == userService.hash(pass) {
        return Some(WithoutPassword(user.value));
      }
      return None;
    }

    /** `login(email, password)`: Unauthorized when the credentials do not check out, and then
        nothing is stored or signed; otherwise a pair signed over `{ userId }`, whose refresh
        token becomes the user's current one. */
    method Login(email: string, password: string) returns (r: Result<TokenPair, Error>)
      requires Valid()
      modifies userService, jwtService
      ensures Valid() && userService.nextId == old(userService.nextId)
      ensures var v := Authenticate(old(userService.rows), userService.hash, email, password);
        && (v.None? ==>
              && r == Failure(DefaultUnauthorized)
              && userService.rows == old(userService.rows)
              && jwtService.issued == old(jwtService.issued))
        && (v.Some? ==>
              && r == Success(TokenPair(
                   jwtService.signer(UserIdClaim(v.value.id), OneHour, old(jwtService.issued)),
                   jwtService.signer(UserIdClaim(v.value.id), ThirtyDays, old(jwtService.issued) + 1)))
              && userService.rows == WithRefreshToken(old(userService.rows), v.value.id, Some(r.value.refreshToken))
              && jwtService.issued == old(jwtService.issued) + 2)
    {
      var user := ValidateUser(email, password);
      if user.None? {
        return Failure(DefaultUnauthorized);
      }
      var accessToken := jwtService.Sign(UserIdClaim(user.value.id), OneHour);
      var refreshToken := jwtService.Sign(UserIdClaim(user.value.id), ThirtyDays);
      userService.UpdateRefreshToken(user.value.id, refreshToken);
      return Success(TokenPair(accessToken, refreshToken));
    }

    /** `signup(email, password)` with the password hashed once: Conflict, and nothing
        created, when the email is taken; otherwise exactly one new user, holding the digest
        of `password` and the refresh token of the pair that login returns for it. */
    method Signup(email: string, password: string) returns (r: Result<TokenPair, Error>)
      requires Valid()
      modifies userService, jwtService
      ensures Valid()
      ensures Lookup(old(userService.rows), EmailKey(email)).Some? ==>
        && r == Failure(Conflict("User already exists"))
        && userService.rows == old(userService.rows)
        && userService.nextId == old(userService.nextId)
        && jwtService.issued == old(jwtService.issued)
      ensures Lookup(old(userService.rows), EmailKey(email)).None? ==>
        var id := old(userService.nextId);
        && r == Success(TokenPair(
             jwtService.signer(UserIdClaim(id), OneHour, old(jwtService.issued)),
             jwtService.signer(UserIdClaim(id), ThirtyDays, old(jwtService.issued) + 1)))
        && userService.rows == old(userService.rows) + [AppUser(id, email, userService.hash(password), Some(r.value.refreshToken))]
        && userService.nextId == id + 1
        && jwtService.issued == old(jwtService.issued) + 2
    {
      var existingUser := userService.FindOneByEmail(email);
      if existingUser.Some? {
        return Failure(Conflict("User already exists"));
      }
      var hashedPassword := userService.hash(password);
      ghost var before := userService.rows;
      var created := userService.Create(email, hashedPassword);
      NewUserAuthenticates(before, created.value, userService.hash, password);
      r := Login(email, password);
      WithRefreshTokenOnAppended(before, created.value, Some(r.value.refreshToken));
    }

    /** `signup` as the source writes it: create hashes the digest again, so the new user holds
        `hash(hash(password))` and login checks `hash(password)` against it. The user is created
        either way; the call succeeds, with the pair login signs for the new id, only if that
        digest of a digest equals the digest, and otherwise fails Unauthorized with nothing
        signed and no refresh token stored. */
    method SignupAsWritten(email: string, password: string) returns (r: Result<TokenPair, Error>)
      requires Valid()
      modifies userService, jwtService
      ensures Valid()
      ensures Lookup(old(userService.rows), EmailKey(email)).Some? ==>
        && r == Failure(Conflict("User already exists"))
        && userService.rows == old(userService.rows)
        && userService.nextId == old(userService.nextId)
        && jwtService.issued == old(jwtService.issued)
      ensures Lookup(old(userService.rows), EmailKey(email)).None? ==>
        var hash := userService.hash;
        var id := old(userService.nextId);
        && userService.nextId == id + 1
        && (hash(hash(password)) == hash(password) ==>
              && r == Success(TokenPair(
                   jwtService.signer(UserIdClaim(id), OneHour, old(jwtService.issued)),
                   jwtService.signer(UserIdClaim(id), ThirtyDays, old(jwtService.issued) + 1)))
              && userService.rows == old(userService.rows) + [AppUser(id, email, hash(hash(password)), Some(r.value.refreshToken))]
              && jwtService.issued == old(jwtService.issued) + 2)
        && (hash(hash(password)) != hash(password) ==>
              && r == Failure(DefaultUnauthorized)
              && userService.rows == old(userService.rows) + [AppUser(id, email, hash(hash(password)), None)]
              && jwtService.issued == old(jwtService.issued))
    {
      var existingUser := userService.FindOneByEmail(email);
      if existingUser.Some? {
        return Failure(Conflict("User already exists"));
      }
      var hashedPassword := userService.hash(password);
      ghost var before := userService.rows;
      var created := userService.CreateAsWritten(email, hashedPassword);
      NewUserAuthenticates(before, created.value, userService.hash, password);
      r := Login(email, password);
      if r.Success? {
        WithRefreshTokenOnAppended(before, created.value, Some(r.value.refreshToken));
      }
    }

    /** `refreshToken(t)`: Unauthorized('Invalid refresh token') when no user holds `t`;
        otherwise a pair signed over `{ email }`, whose refresh token replaces the user's. */
    method RefreshToken(refreshToken: string) returns (r: Result<TokenPair, Error>)
      requires Valid()
      modifies userService, jwtService
      ensures Valid() && userService.nextId == old(userService.nextId)
      ensures var holder := Lookup(old(userService.rows), TokenKey(refreshToken));
        && (holder.None? ==>
              && r == Failure(Unauthorized("Invalid refresh token"))
              && userService.rows == old(userService.rows)
              && jwtService.issued == old(jwtService.issued))
        && (holder.Some? ==>
              && r == Success(TokenPair(
                   jwtService.signer(EmailClaim(holder.value.email), ModuleDefault, old(jwtService.issued)),
                   jwtService.signer(EmailClaim(holder.value.email), ThirtyDays, old(jwtService.issued) + 1)))
              && userService.rows == WithRefreshToken(old(userService.rows), holder.value.id, Some(r.value.refreshToken))
              && jwtService.issued == old(jwtService.issued) + 2)
    {
      var user := userService.FindByRefreshToken(refreshToken);
      if user.None? {
        return Failure(Unauthorized("Invalid refresh token"));
      }
      var payload := EmailClaim(user.value.email);
      var newAccessToken := jwtService.Sign(payload, ModuleDefault);
      var newRefreshToken := jwtService.Sign(payload, ThirtyDays);
      userService.UpdateRefreshToken(user.value.id, newRefreshToken);
      return Success(TokenPair(newAccessToken, newRefreshToken));
    }

    /** `logout(userId)`: that user's refresh token is cleared, whatever it was. */
    method Logout(userId: nat)
      requires Valid()
      modifies userService
      ensures Valid() && userService.nextId == old(userService.nextId)
      ensures userService.rows == WithRefreshToken(old(userService.rows), userId, None)
    {
      userService.ClearRefreshToken(userId);
    }
  }

  /** A row appended under an email no earlier row has is the one validateUser finds for that
      email, and it checks out exactly when its digest is `hash(pass)`. */
  lemma NewUserAuthenticates(rows: seq<AppUser>, u: AppUser, hash: string -> string, pass: string)
    requires Lookup(rows, EmailKey(u.email)).None?
    ensures Lookup(rows + [u], EmailKey(u.email)) == Some(u)
    ensures Authenticate(rows + [u], hash, u.email, pass) ==
      if u.password == hash(pass) then Some(WithoutPassword(u)) else None
  {
    var s := rows + [u];
    assert Matches(s[|rows|], EmailKey(u.email));
    assert forall j | 0 <= j < |rows| :: s[j] == rows[j];
  }
}
