/** The app_user table as a value: its rows, the lookups the services run against it and the
    one update they make to it. */
module Users {
  import opened Wrappers

  /** A row of app_user. `password` holds whatever string was saved (a bcrypt digest);
      `refreshToken` is the token the user may currently refresh with, if any. */
  datatype AppUser = AppUser(id: nat, email: string, password: string, refreshToken: Option<string>)

  /** `const { password, ...result } = user`: the user record without its password. */
  datatype SafeUser = SafeUser(id: nat, email: string, refreshToken: Option<string>)

  function WithoutPassword(u: AppUser): SafeUser {
    SafeUser(u.id, u.email, u.refreshToken)
  }

  /** Puts a password back on a stripped record: the inverse of WithoutPassword. */
  function WithPassword(s: SafeUser, password: string): AppUser {
    AppUser(s.id, s.email, password, s.refreshToken)
  }

  /** Stripping the password keeps every other field, so restoring it gives the record back. */
  lemma PasswordStripRoundTrip(u: AppUser)
    ensures WithPassword(WithoutPassword(u), u.password) == u
    ensures WithoutPassword(WithPassword(WithoutPassword(u), "")) == WithoutPassword(u)
  {
  }

  /** The column a lookup filters on. */
  datatype Key = EmailKey(email: string) | IdKey(id: int) | TokenKey(token: string)

  predicate Matches(u: AppUser, k: Key) {
    match k
    case EmailKey(e) => u.email == e
    case IdKey(i) => u.id == i
    case TokenKey(t) => u.refreshToken == Some(t)
  }

  /** The table's keys: `id` is the primary key and `email` carries a unique constraint. */
  ghost predicate UniqueKeys(rows: seq<AppUser>) {
    forall i, j | 0 <= i < j < |rows| :: rows[i].id != rows[j].id && rows[i].email != rows[j].email
  }

  /** The position of the first row that matches `k`. */
  function Find(rows: seq<AppUser>, k: Key): (r: Option<nat>)
    ensures r.Some? ==> r.value < |rows| && Matches(rows[r.value], k)
    ensures r.Some? ==> forall j | 0 <= j < r.value :: !Matches(rows[j], k)
    ensures r.None? <==> forall j | 0 <= j < |rows| :: !Matches(rows[j], k)
  {
    if rows == [] then None
    else if Matches(rows[0], k) then Some(0)
    else match Find(rows[1..], k)
      case None => None
      case Some(i) => Some(i + 1)
  }

  /** The first row that matches `k` (`findOneBy` / `findOne({ where })`). */
  function Lookup(rows: seq<AppUser>, k: Key): Option<AppUser> {
    match Find(rows, k)
    case None => None
    case Some(i) => Some(rows[i])
  }

  /** Lookup finds a row exactly when one matches, and what it finds is a matching row. */
  lemma LookupSpec(rows: seq<AppUser>, k: Key)
    ensures Lookup(rows, k).Some? <==> exists u :: u in rows && Matches(u, k)
    ensures Lookup(rows, k).Some? ==> Lookup(rows, k).value in rows && Matches(Lookup(rows, k).value, k)
  {
    if u :| u in rows && Matches(u, k) {
      var i :| 0 <= i < |rows| && rows[i] == u;
      assert Find(rows, k).Some?;
    }
  }

  /** On a table with unique keys, a row found by email or by id is the only one with that
      email or id. */
  lemma LookupUnique(rows: seq<AppUser>, i: nat, k: Key)
    requires UniqueKeys(rows)
    requires i < |rows| && Matches(rows[i], k)
    requires k.EmailKey? || k.IdKey?
    ensures Find(rows, k) == Some(i)
  {
    assert Find(rows, k).Some?;
  }

  /** `repository.update(id, { refreshToken: t })`: every row with that id gets `t` as its
      refresh token; no other field and no other row changes. */
  function WithRefreshToken(rows: seq<AppUser>, id: nat, t: Option<string>): (r: seq<AppUser>)
    ensures |r| == |rows|
    ensures forall i | 0 <= i < |r| :: r[i].id == rows[i].id && r[i].email == rows[i].email && r[i].password == rows[i].password
    ensures forall i | 0 <= i < |r| :: r[i].refreshToken == if rows[i].id == id then t else rows[i].refreshToken
  {
    seq(|rows|, i requires 0 <= i < |rows| => if rows[i].id == id then rows[i].(refreshToken := t) else rows[i])
  }

  /** Setting refresh tokens keeps ids and emails, so it keeps the table's keys unique. */
  lemma WithRefreshTokenKeepsKeys(rows: seq<AppUser>, id: nat, t: Option<string>)
    requires UniqueKeys(rows)
    ensures UniqueKeys(WithRefreshToken(rows, id, t))
  {
  }

  /** Setting the same token twice is setting it once: logout is idempotent. */
  lemma WithRefreshTokenIdempotent(rows: seq<AppUser>, id: nat, t: Option<string>)
    ensures WithRefreshToken(WithRefreshToken(rows, id, t), id, t) == WithRefreshToken(rows, id, t)
  {
  }

  /** Lookups by email or id give the same row before and after a token update, apart from
      its refresh token. */
  lemma WithRefreshTokenKeepsIdentity(rows: seq<AppUser>, id: nat, t: Option<string>, k: Key)
    requires !k.TokenKey?
    ensures Find(WithRefreshToken(rows, id, t), k) == Find(rows, k)
  {
    var r := WithRefreshToken(rows, id, t);
    assert forall j | 0 <= j < |rows| :: Matches(r[j], k) == Matches(rows[j], k);
  }

  /** After user `id` is given token `t`, a lookup by `t` finds a row, at or before that
      user's: a token just issued can be presented back. */
  lemma IssuedTokenMatches(rows: seq<AppUser>, i: nat, t: string)
    requires i < |rows|
    ensures var r := WithRefreshToken(rows, rows[i].id, Some(t));
      Find(r, TokenKey(t)).Some? && Find(r, TokenKey(t)).value <= i
  {
    var r := WithRefreshToken(rows, rows[i].id, Some(t));
    assert Matches(r[i], TokenKey(t));
  }

  /** Once user `rows[i]` is given `renewed`, a token `stale` that only this user held, and
      that differs from `renewed`, matches no row any more: it cannot be replayed. */
  lemma RotationRevokes(rows: seq<AppUser>, i: nat, stale: string, renewed: string)
    requires UniqueKeys(rows) && i < |rows|
    requires forall j | 0 <= j < |rows| && j != i :: rows[j].refreshToken != Some(stale)
    requires stale != renewed
    ensures Find(WithRefreshToken(rows, rows[i].id, Some(renewed)), TokenKey(stale)) == None
  {
    var r := WithRefreshToken(rows, rows[i].id, Some(renewed));
    forall j | 0 <= j < |r| ensures !Matches(r[j], TokenKey(stale)) {
      if j < i {
        assert rows[j].id != rows[i].id;
      } else if i < j {
        assert rows[i].id != rows[j].id;
      }
    }
  }

  /** Appending a row whose id and email are new keeps the keys unique. */
  lemma AppendKeepsKeys(rows: seq<AppUser>, u: AppUser)
    requires UniqueKeys(rows)
    requires forall j | 0 <= j < |rows| :: rows[j].id != u.id && rows[j].email != u.email
    ensures UniqueKeys(rows + [u])
  {
  }

  /** Giving a token to the row just appended touches no earlier row. */
  lemma WithRefreshTokenOnAppended(rows: seq<AppUser>, u: AppUser, t: Option<string>)
    requires forall j | 0 <= j < |rows| :: rows[j].id != u.id
    ensures WithRefreshToken(rows + [u], u.id, t) == rows + [u.(refreshToken := t)]
  {
    var r := WithRefreshToken(rows + [u], u.id, t);
    assert forall j | 0 <= j < |rows| :: r[j] == rows[j];
  }
}
