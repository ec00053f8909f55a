/** The back end's account table: registration with uniqueness checks, login, and the access-token
    claims. The database is a sequence of rows; bcrypt and JWT signing are parameters. */
module Accounts {
  import opened Wrappers
  import opened Text

  /** A stored account (`users` table). */
  datatype User = User(id: nat, firstName: string, lastName: string, username: string,
                       email: string, hashedPassword: string)

  /** The `/register` request body. */
  datatype UserCreate = UserCreate(firstName: string, lastName: string, username: string,
                                   email: string, password: string)

  /** An `HTTPException`'s status and detail (a list of messages or one message). */
  datatype Detail = Messages(messages: seq<string>) | Text(text: string)
  datatype HttpError = HttpError(status: int, detail: Detail)

  /** A JWT claim value: a string, or an instant in seconds since the epoch. */
  datatype Claim = Str(s: string) | Instant(seconds: int)

  type Claims = map<string, Claim>

  const AccessTokenExpireMinutes := 60

  /** The `exp` a token gets: `now + (expires_delta or timedelta(minutes=60))`; a zero delta is
      falsy and falls back to the default. Times are in seconds. */
  function ExpiryOf(expiresDelta: Option<int>, now: int): (exp: int)
    ensures expiresDelta.None? || expiresDelta == Some(0) ==> exp == now + 3600
    ensures expiresDelta.Some? && expiresDelta.value != 0 ==> exp == now + expiresDelta.value
  {
    if expiresDelta.Some? && expiresDelta.value != 0 then now + expiresDelta.value
    else now + AccessTokenExpireMinutes * 60
  }

  /** The claims `create_access_token` signs: a copy of `data` with `exp` set. The caller's `data` is a
      value here, so it cannot be altered. */
  function AccessTokenClaims(data: Claims, expiresDelta: Option<int>, now: int): (claims: Claims)
    ensures claims.Keys == data.Keys + {"exp"}
    ensures claims["exp"] == Instant(ExpiryOf(expiresDelta, now))
    ensures forall k :: k in data && k != "exp" ==> claims[k] == data[k]
  {
    data["exp" := Instant(ExpiryOf(expiresDelta, now))]
  }

  /** The claims of the token handed out after registration or login. */
  function SessionClaims(username: string, now: int): Claims {
    AccessTokenClaims(map["sub" := Str(username)], None, now)
  }

  /** A session token names its user and lasts an hour. */
  lemma SessionClaimsShape(username: string, now: int)
    ensures SessionClaims(username, now).Keys == {"sub", "exp"}
    ensures SessionClaims(username, now)["sub"] == Str(username)
    ensures SessionClaims(username, now)["exp"] == Instant(now + 3600)
  {
  }

  /** `password.encode("utf-8")[:72]`: the bytes bcrypt sees. */
  function PasswordBytes(password: string): (bs: seq<Byte>)
    ensures |bs| <= 72
    ensures bs <= Utf8(password)
    ensures |Utf8(password)| <= 72 ==> bs == Utf8(password)
    ensures |Utf8(password)| >= 72 ==> |bs| == 72
  {
    var all := Utf8(password);
    if |all| <= 72 then all else all[..72]
  }

  /** Two passwords whose encodings agree on the first 72 bytes hash and check alike. */
  lemma PasswordsInterchangeable(p: string, q: string)
    requires |Utf8(p)| >= 72 && |Utf8(q)| >= 72 && Utf8(p)[..72] == Utf8(q)[..72]
    ensures PasswordBytes(p) == PasswordBytes(q)
  {
    assert PasswordBytes(p) == Utf8(p)[..72];
    assert PasswordBytes(q) == Utf8(q)[..72];
  }

  /** Whatever follows a password that already fills 72 bytes is ignored. */
  lemma SuffixIgnored(p: string, extra: string)
    requires |Utf8(p)| >= 72
    ensures PasswordBytes(p + extra) == PasswordBytes(p)
  {
    Utf8Append(p, extra);
    assert Utf8(p + extra)[..72] == Utf8(p)[..72];
  }

  /** The first row with the given username (`filter(...).first()`). */
  function FindByUsername(users: seq<User>, username: string): (r: Option<nat>)
    ensures r.Some? ==> r.value < |users| && users[r.value].username == username
    ensures r.Some? ==> forall j :: 0 <= j < r.value ==> users[j].username != username
    ensures r.None? ==> forall j :: 0 <= j < |users| ==> users[j].username != username
  {
    if users == [] then None
    else if users[0].username == username then Some(0)
    else match FindByUsername(users[1..], username)
      case None => None
      case Some(i) => Some(i + 1)
  }

  predicate UsernameTaken(users: seq<User>, username: string) {
    exists j :: 0 <= j < |users| && users[j].username == username
  }

  predicate EmailTaken(users: seq<User>, email: string) {
    exists j :: 0 <= j < |users| && users[j].email == email
  }

  /** The error list `register_user` builds, in the order of its checks. */
  function RegistrationErrors(users: seq<User>, username: string, email: string): (errors: seq<string>)
    ensures "Username already exists" in errors <==> UsernameTaken(users, username)
    ensures "Email already exists" in errors <==> EmailTaken(users, email)
    ensures forall i :: 0 <= i < |errors| ==> errors[i] in {"Username already exists", "Email already exists"}
    ensures forall i, j :: 0 <= i < j < |errors| ==> errors[i] != errors[j]
    ensures UsernameTaken(users, username) && EmailTaken(users, email) ==>
      errors == ["Username already exists", "Email already exists"]
  {
    (if UsernameTaken(users, username) then ["Username already exists"] else [])
    + (if EmailTaken(users, email) then ["Email already exists"] else [])
  }

  /** No two rows share an id, a username or an e-mail, and every id is below the next one. */
  predicate UniqueRows(users: seq<User>, nextId: nat) {
    && (forall i, j :: 0 <= i < j < |users| ==> users[i].username != users[j].username)
    && (forall i, j :: 0 <= i < j < |users| ==> users[i].email != users[j].email)
    && (forall i, j :: 0 <= i < j < |users| ==> users[i].id != users[j].id)
    && (forall i :: 0 <= i < |users| ==> users[i].id < nextId)
  }

  /** Appending a row that passed the checks keeps the table unique. */
  lemma AddKeepsUnique(users: seq<User>, nextId: nat, u: User)
    requires UniqueRows(users, nextId)
    requires RegistrationErrors(users, u.username, u.email) == []
    requires u.id == nextId
    ensures UniqueRows(users + [u], nextId + 1)
  {
    var all := users + [u];
    assert !UsernameTaken(users, u.username) && !EmailTaken(users, u.email);
    forall i, j | 0 <= i < j < |all|
      ensures all[i].username != all[j].username && all[i].email != all[j].email && all[i].id != all[j].id
    {
      if j == |users| {
        assert all[i] == users[i];
      }
    }
  }

  /** What a successful registration or login answers: the token's claims and the user. */
  datatype Session = Session(claims: Claims, user: User)

  /** The `users` table. `nextId` is the id the next insert receives. */
  class UserTable {
    var users: seq<User>
    var nextId: nat

    predicate Valid()
      reads this
    {
      UniqueRows(users, nextId)
    }

    constructor ()
      ensures Valid() && users == [] && nextId == 1
    {
      users := [];
      nextId := 1;
    }

    /** `register_user`. A taken username or e-mail answers 400 with the error list and leaves the
        table as it was; otherwise exactly one row is added, holding the hash of the truncated
        password bytes (`hashpw` with the fresh `salt`) in place of the password. */
    method Register(form: UserCreate, hashpw: (seq<Byte>, string) -> string, salt: string, now: int)
      returns (r: Result<Session, HttpError>)
      requires Valid()
      modifies this
      ensures Valid()
      ensures var errors := RegistrationErrors(old(users), form.username, form.email);
        && (errors != [] ==> r == Err(HttpError(400, Messages(errors))) && users == old(users) && nextId == old(nextId))
        && (errors == [] ==>
              var u := User(old(nextId), form.firstName, form.lastName, form.username, form.email,
                            hashpw(PasswordBytes(form.password), salt));
              users == old(users) + [u] && nextId == old(nextId) + 1
              && r == Ok(Session(SessionClaims(form.username, now), u)))
    {
      var errors := [];
      if UsernameTaken(users, form.username) {
        errors := errors + ["Username already exists"];
      }
      if EmailTaken(users, form.email) {
        errors := errors + ["Email already exists"];
      }
      assert errors == RegistrationErrors(users, form.username, form.email);
      if errors != [] {
        return Err(HttpError(400, Messages(errors)));
      }
      var hashed := hashpw(PasswordBytes(form.password), salt);
      var u := User(nextId, form.firstName, form.lastName, form.username, form.email, hashed);
      AddKeepsUnique(users, nextId, u);
      users := users + [u];
      nextId := nextId + 1;
      return Ok(Session(SessionClaims(u.username, now), u));
    }

    /** `login`: an unknown username and a wrong password give the same 400 answer; otherwise the
        stored user and a fresh session token. `checkpw` stands for `bcrypt.checkpw`. */
    method Login(username: string, password: string, checkpw: (seq<Byte>, string) -> bool, now: int)
      returns (r: Result<Session, HttpError>)
      ensures r.Err? <==> (!UsernameTaken(users, username)
        || !checkpw(PasswordBytes(password), users[FindByUsername(users, username).value].hashedPassword))
      ensures r.Err? ==> r.error == HttpError(400, Text("Invalid username or password"))
      ensures r.Ok? ==> (r.value.user == users[FindByUsername(users, username).value] && r.value.user.username == username
        && r.value.claims == SessionClaims(username, now))
    {
      var found := FindByUsername(users, username);
      if found.None? {
        return Err(HttpError(400, Text("Invalid username or password")));
      }
      var u := users[found.value];
      if !checkpw(PasswordBytes(password), u.hashedPassword) {
        return Err(HttpError(400, Text("Invalid username or password")));
      }
      return Ok(Session(SessionClaims(u.username, now), u));
    }
  }
}
