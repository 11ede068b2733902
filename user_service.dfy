/** UserService over the app_user repository. The repository's rows are the field `rows`;
    `nextId` is the identity column's next value. */
module UserStore {
  import opened Wrappers
  import opened Errors
  import opened JsText
  import opened Users

  /** The message findOneById raises with (taken to be the one TodoService uses for the same
      case, since findOneById's own source is not part of this model). */
  function UserNotFoundMessage(id: int): string {
    "User with ID " + IntToString(id) + " not found"
  }

  class UserService {
    var rows: seq<AppUser>
    var nextId: nat
    /** `bcrypt.hash(p, 10)`, uninterpreted; `bcrypt.compare(p, h)` holds exactly when
        `h == hash(p)`. Salting is not modelled. */
    const hash: string -> string

    ghost predicate Valid()
      reads this
    {
      && UniqueKeys(rows)
      && 1 <= nextId
      && (forall i | 0 <= i < |rows| :: 1 <= rows[i].id < nextId)
    }

    constructor (hash: string -> string)
      ensures Valid() && rows == [] && nextId == 1 && this.hash == hash
    {
      rows := [];
      nextId := 1;
      this.hash := hash;
    }

    /** The position of the first row matching `k`: the scan behind every `findOneBy`. */
    method Scan(k: Key) returns (r: Option<nat>)
      ensures r == Find(rows, k)
    {
      var i := 0;
      while i < |rows|
        invariant 0 <= i <= |rows|
        invariant forall j | 0 <= j < i :: !Matches(rows[j], k)
      {
        if Matches(rows[i], k) {
          return Some(i);
        }
        i := i + 1;
      }
      return None;
    }

    /** `findOne(email)`: the user with that email, or undefined. */
    method FindOne(email: string) returns (r: Option<AppUser>)
      requires Valid()
      ensures r == Lookup(rows, EmailKey(email))
      ensures r.Some? <==> exists u :: u in rows && u.email == email
      ensures r.Some? ==> r.value in rows && r.value.email == email
    {
      var i := Scan(EmailKey(email));
      LookupSpec(rows, EmailKey(email));
      r := if i.Some? then Some(rows[i.value]) else None;
    }

    /** `findOneByEmail(email)`, the same query under the name the callers use. */
    method FindOneByEmail(email: string) returns (r: Option<AppUser>)
      requires Valid()
      ensures r == Lookup(rows, EmailKey(email))
      ensures r.Some? <==> exists u :: u in rows && u.email == email
    {
      r := FindOne(email);
    }

    /** `findOneById(id)`: the user with that id; NotFound when there is none. */
    method FindOneById(id: int) returns (r: Result<AppUser, Error>)
      requires Valid()
      ensures r.Success? <==> exists u :: u in rows && u.id == id
      ensures r.Success? ==> r.value in rows && r.value.id == id && Lookup(rows, IdKey(id)) == Some(r.value)
      ensures r.Failure? ==> r.error == NotFound(UserNotFoundMessage(id))
    {
      var i := Scan(IdKey(id));
      LookupSpec(rows, IdKey(id));
      r := if i.Some? then Success(rows[i.value]) else Failure(NotFound(UserNotFoundMessage(id)));
    }

    /** `findByRefreshToken(t)`: the first user whose stored refresh token is `t`, or undefined. */
    method FindByRefreshToken(t: string) returns (r: Option<AppUser>)
      requires Valid()
      ensures r == Lookup(rows, TokenKey(t))
      ensures r.Some? <==> exists u :: u in rows && u.refreshToken == Some(t)
    {
      var i := Scan(TokenKey(t));
      LookupSpec(rows, TokenKey(t));
      r := if i.Some? then Some(rows[i.value]) else None;
    }

    /** `create(email, password)` then `save`, storing the password as given. The unique
        constraint on email makes the save fail when the email is taken. */
    method Create(email: string, password: string) returns (r: Result<AppUser, Error>)
      requires Valid()
      modifies this
      ensures Valid()
      ensures Lookup(old(rows), EmailKey(email)).Some? ==>
        r.Failure? && rows == old(rows) && nextId == old(nextId)
      ensures Lookup(old(rows), EmailKey(email)).None? ==>
        && r == Success(AppUser(old(nextId), email, password, None))
        && rows == old(rows) + [r.value]
        && nextId == old(nextId) + 1
    {
      r := Insert(email, password);
    }

    /** `create(email, password)` as the source writes it: it hashes the password again
        before saving, so a caller that passes a digest stores the digest of that digest. */
    method CreateAsWritten(email: string, password: string) returns (r: Result<AppUser, Error>)
      requires Valid()
      modifies this
      ensures Valid()
      ensures Lookup(old(rows), EmailKey(email)).Some? ==>
        r.Failure? && rows == old(rows) && nextId == old(nextId)
      ensures Lookup(old(rows), EmailKey(email)).None? ==>
        && r == Success(AppUser(old(nextId), email, hash(password), None))
        && rows == old(rows) + [r.value]
        && nextId == old(nextId) + 1
    {
      var hashedPassword := hash(password);
      r := Insert(email, hashedPassword);
    }

    /** `repository.save` of a new row. */
    method Insert(email: string, password: string) returns (r: Result<AppUser, Error>)
      requires Valid()
      modifies this
      ensures Valid()
      ensures Lookup(old(rows), EmailKey(email)).Some? ==>
        r == Failure(QueryFailed("duplicate key value violates unique constraint"))
        && rows == old(rows) && nextId == old(nextId)
      ensures Lookup(old(rows), EmailKey(email)).None? ==>
        && r == Success(AppUser(old(nextId), email, password, None))
        && rows == old(rows) + [r.value]
        && nextId == old(nextId) + 1
    {
      var taken := Scan(EmailKey(email));
      if taken.Some? {
        return Failure(QueryFailed("duplicate key value violates unique constraint"));
      }
      var u := AppUser(nextId, email, password, None);
      AppendKeepsKeys(rows, u);
      rows := rows + [u];
      nextId := nextId + 1;
      r := Success(u);
    }

    /** `repository.update(id, { refreshToken: t })`, row by row. */
    method SetRefreshToken(id: nat, t: Option<string>)
      requires Valid()
      modifies this
      ensures Valid()
      ensures rows == WithRefreshToken(old(rows), id, t) && nextId == old(nextId)
    {
      ghost var target := WithRefreshToken(rows, id, t);
      WithRefreshTokenKeepsKeys(rows, id, t);
      var i := 0;
      while i < |rows|
        invariant 0 <= i <= |rows| == |target|
        invariant nextId == old(nextId)
        invariant forall j | 0 <= j < i :: rows[j] == target[j]
        invariant forall j | i <= j < |rows| :: rows[j] == old(rows)[j]
      {
        if rows[i].id == id {
          rows := rows[i := rows[i].(refreshToken := t)];
        }
        i := i + 1;
      }
    }

    /** `updateRefreshToken(id, t)`: only that user's refresh token becomes `t`. */
    method UpdateRefreshToken(id: nat, t: string)
      requires Valid()
      modifies this
      ensures Valid()
      ensures rows == WithRefreshToken(old(rows), id, Some(t)) && nextId == old(nextId)
    {
      SetRefreshToken(id, Some(t));
    }

    /** `clearRefreshToken(id)`: only that user's refresh token becomes null. */
    method ClearRefreshToken(id: nat)
      requires Valid()
      modifies this
      ensures Valid()
      ensures rows == WithRefreshToken(old(rows), id, None) && nextId == old(nextId)
    {
      SetRefreshToken(id, None);
    }
  }
}
