/** Registration and login (app/api/v1/endpoints/auth.py) over the user
    table of the store.

Password hashing, password verification and token encoding live in
`app.core.security`, which is not part of this model: they are parameters.
Both endpoints query `User.__table__.select()`, whose `scalar_one_or_none()`
is the first column of the matching row, the user's id. Registration only
tests that value for truth; login then reads `hashed_password` off it, which
an `int` does not have, so every known email ends in a 500. `Login` models
the evidently intended query for the `User` row.
 */
module Auth {
  import opened Wrappers
  import opened Models
  import PortfolioEndpoints

  const EmailTakenText := "Email already registered"
  const BadLoginText := "Incorrect email or password"
  const TokenType := "bearer"
  /** `ACCESS_TOKEN_EXPIRE_MINUTES` (app/core/config.py:17). */
  const AccessTokenExpireMinutes := 30

  type Hasher = string -> string
  /** `verify_password(plain, hashed)`. */
  type Verifier = (string, string) -> bool
  /** `create_access_token(data, expires_delta)`, the delta in minutes. */
  type Encoder = (Claims, int) -> string

  datatype UserCreate = UserCreate(email: string, fullName: string, password: string)

  datatype TokenResponse = TokenResponse(accessToken: string, tokenType: string)

  /** The users whose email matches, in table order. */
  function UsersByEmail(users: seq<User>, email: string): (r: seq<User>)
    ensures forall u :: u in r <==> u in users && u.email == email
  {
    if |users| == 0 then []
    else
      var last := users[|users| - 1];
      UsersByEmail(users[..|users| - 1], email) + (if last.email == email then [last] else [])
  }

  /** The first column of those rows: their ids. */
  function IdsByEmail(users: seq<User>, email: string): (r: seq<nat>)
    ensures |r| == |UsersByEmail(users, email)|
    ensures forall i :: 0 <= i < |r| ==> r[i] == UsersByEmail(users, email)[i].id
  {
    var rows := UsersByEmail(users, email);
    seq(|rows|, i requires 0 <= i < |rows| => rows[i].id)
  }

  predicate EmailsUnique(users: seq<User>) {
    forall i, j :: 0 <= i < j < |users| ==> users[i].email != users[j].email
  }

  /** The user table as the database keeps it: unique emails (the column's
      unique index) and serial ids, which start at 1. */
  predicate UsersSound(s: Store) {
    && EmailsUnique(s.users)
    && s.nextUserId > 0
    && forall i :: 0 <= i < |s.users| ==> 0 < s.users[i].id < s.nextUserId
  }

  lemma {:induction false} NoMatchNoRows(users: seq<User>, email: string)
    requires forall u :: u in users ==> u.email != email
    ensures UsersByEmail(users, email) == []
  {
    if |users| > 0 {
      assert users[|users| - 1] in users;
      var init := users[..|users| - 1];
      assert forall u :: u in init ==> u in users;
      NoMatchNoRows(init, email);
    }
  }

  /** With unique emails the lookup yields at most one row. */
  lemma {:induction false} UsersByEmailAtMostOne(users: seq<User>, email: string)
    requires EmailsUnique(users)
    ensures |UsersByEmail(users, email)| <= 1
  {
    if |users| > 0 {
      var init := users[..|users| - 1];
      assert EmailsUnique(init) by {
        forall i, j | 0 <= i < j < |init|
          ensures init[i].email != init[j].email
        {
          assert init[i] == users[i] && init[j] == users[j];
        }
      }
      UsersByEmailAtMostOne(init, email);
      if users[|users| - 1].email == email {
        forall u | u in init
          ensures u.email != email
        {
          var i :| 0 <= i < |init| && init[i] == u;
          assert users[i] == u;
        }
        NoMatchNoRows(init, email);
      }
    }
  }

  /** The lookup on a sound table: the one user with the email, if any. */
  lemma LookupFinds(s: Store, u: User)
    requires UsersSound(s) && u in s.users
    ensures UsersByEmail(s.users, u.email) == [u]
    ensures IdsByEmail(s.users, u.email) == [u.id]
  {
    UsersByEmailAtMostOne(s.users, u.email);
    assert u in UsersByEmail(s.users, u.email);
  }

  /** `register`: 400 when the lookup yields a (truthy) id; otherwise one new
      user with the hash of the password, never the password itself. */
  function Register(s: Store, body: UserCreate, hash: Hasher): (r: (HttpOutcome<User>, Store))
    ensures r.0.HttpError? ==> r.1 == s
    ensures r.0.HttpError? ==> r.0 == HttpError(400, EmailTakenText) || r.0 == HttpError(500, InternalErrorText)
    ensures r.0.Answer? ==>
              && r.0.value.id == s.nextUserId
              && r.0.value.email == body.email && r.0.value.fullName == body.fullName
              && r.0.value.hashedPassword == hash(body.password)
              && r.1 == s.(users := s.users + [r.0.value], nextUserId := s.nextUserId + 1)
    ensures UsersSound(s) ==>
              && (r.0.HttpError? <==> exists u :: u in s.users && u.email == body.email)
              && (r.0.HttpError? ==> r.0.status == 400 && r.0.detail == EmailTakenText)
  {
    var ids := IdsByEmail(s.users, body.email);
    RegisterLookup(s, body.email);
    match OneOrNone(ids)
    case Err(_) => (HttpError(500, InternalErrorText), s)
    case Ok(found) =>
      if found.Some? && found.value != 0 then (HttpError(400, EmailTakenText), s)
      else
        var u := User(s.nextUserId, body.email, hash(body.password), body.fullName);
        (Answer(u), s.(users := s.users + [u], nextUserId := s.nextUserId + 1))
  }

  /** What the registration lookup yields on a sound table. */
  lemma RegisterLookup(s: Store, email: string)
    ensures UsersSound(s) ==>
              (exists u :: u in s.users && u.email == email) == (|IdsByEmail(s.users, email)| == 1 && IdsByEmail(s.users, email)[0] != 0)
    ensures UsersSound(s) ==> |IdsByEmail(s.users, email)| <= 1
  {
    if UsersSound(s) {
      if u :| u in s.users && u.email == email {
        LookupFinds(s, u);
        var i :| 0 <= i < |s.users| && s.users[i] == u;
      } else {
        NoMatchNoRows(s.users, email);
      }
    }
  }

  /** Registration keeps the user table sound: emails stay unique. */
  lemma RegisterKeepsUsersSound(s: Store, body: UserCreate, hash: Hasher)
    requires UsersSound(s)
    ensures UsersSound(Register(s, body, hash).1)
  {
    var (r, s') := Register(s, body, hash);
    if r.Answer? {
      forall i | 0 <= i < |s.users|
        ensures s.users[i].email != body.email
      {
        assert s.users[i] in s.users;
      }
    }
  }

  /** `login` as written: the lookup yields an id, and reading
      `hashed_password` off it raises, whatever the password. */
  function LoginAsWritten(s: Store, username: string, password: string, verify: Verifier, encode: Encoder): (r: HttpOutcome<TokenResponse>)
    ensures UsersSound(s) ==> r.HttpError?
    ensures r.HttpError? ==> r == HttpError(401, BadLoginText) || r == HttpError(500, InternalErrorText)
    ensures UsersSound(s) && (forall u :: u in s.users ==> u.email != username) ==> r == HttpError(401, BadLoginText)
  {
    RegisterLookup(s, username);
    match OneOrNone(IdsByEmail(s.users, username))
    case Err(_) => HttpError(500, InternalErrorText)
    case Ok(None) => HttpError(401, BadLoginText)
    case Ok(Some(id)) =>
      if id == 0 then HttpError(401, BadLoginText)
      else HttpError(500, InternalErrorText)
  }

  /** Every registered user is refused with a server error, even with the
      right password. */
  lemma AsWrittenRejectsKnownUsers(s: Store, u: User, password: string, verify: Verifier, encode: Encoder)
    requires UsersSound(s) && u in s.users
    ensures LoginAsWritten(s, u.email, password, verify, encode) == HttpError(500, InternalErrorText)
  {
    LookupFinds(s, u);
    var i :| 0 <= i < |s.users| && s.users[i] == u;
  }

  /** `login` as evidently intended: unknown email and wrong password are
      refused alike; otherwise a bearer token whose `sub` is the user's id. */
  function Login(s: Store, username: string, password: string, verify: Verifier, encode: Encoder): (r: HttpOutcome<TokenResponse>)
    ensures UsersSound(s) ==>
              (r.Answer? <==> exists u :: u in s.users && u.email == username && verify(password, u.hashedPassword))
    ensures UsersSound(s) && r.HttpError? ==> r == HttpError(401, BadLoginText)
    ensures r.HttpError? ==> r == HttpError(401, BadLoginText) || r == HttpError(500, InternalErrorText)
    ensures r.Answer? ==>
              && r.value.tokenType == TokenType
              && exists u :: u in s.users && u.email == username
                             && r.value.accessToken == encode(Claims(Some(u.id)), AccessTokenExpireMinutes)
  {
    var rows := UsersByEmail(s.users, username);
    LoginLookup(s, username);
    match OneOrNone(rows)
    case Err(_) => HttpError(500, InternalErrorText)
    case Ok(None) => HttpError(401, BadLoginText)
    case Ok(Some(u)) =>
      if !verify(password, u.hashedPassword) then HttpError(401, BadLoginText)
      else Answer(TokenResponse(encode(Claims(Some(u.id)), AccessTokenExpireMinutes), TokenType))
  }

  /** What the login lookup yields. */
  lemma LoginLookup(s: Store, email: string)
    ensures |UsersByEmail(s.users, email)| > 0 ==>
              UsersByEmail(s.users, email)[0] in s.users && UsersByEmail(s.users, email)[0].email == email
    ensures UsersSound(s) ==>
              && |UsersByEmail(s.users, email)| <= 1
              && ((exists u :: u in s.users && u.email == email) <==> |UsersByEmail(s.users, email)| == 1)
  {
    var rows := UsersByEmail(s.users, email);
    if |rows| > 0 {
      assert rows[0] in rows;
    }
    if UsersSound(s) {
      if u :| u in s.users && u.email == email {
        LookupFinds(s, u);
      } else {
        NoMatchNoRows(s.users, email);
      }
    }
  }

  /** An unknown email and a wrong password get the same answer. */
  lemma RejectionsIdentical(s: Store, unknown: string, u: User, wrong: string, verify: Verifier, encode: Encoder)
    requires UsersSound(s)
    requires forall v :: v in s.users ==> v.email != unknown
    requires u in s.users && !verify(wrong, u.hashedPassword)
    ensures Login(s, unknown, wrong, verify, encode) == Login(s, u.email, wrong, verify, encode)
    ensures Login(s, unknown, wrong, verify, encode) == HttpError(401, BadLoginText)
  {
    LookupFinds(s, u);
  }

  /** A user who just registered can log in with the password, provided the
      hash verifies, and the token names the new id. */
  lemma RegisterThenLogin(s: Store, body: UserCreate, hash: Hasher, verify: Verifier, encode: Encoder)
    requires UsersSound(s)
    requires forall u :: u in s.users ==> u.email != body.email
    requires verify(body.password, hash(body.password))
    ensures var (r, s') := Register(s, body, hash);
            && r.Answer?
            && Login(s', body.email, body.password, verify, encode)
               == Answer(TokenResponse(encode(Claims(Some(s.nextUserId)), AccessTokenExpireMinutes), TokenType))
  {
    var (r, s') := Register(s, body, hash);
    RegisterKeepsUsersSound(s, body, hash);
    assert r.value in s'.users by {
      assert s'.users[|s.users|] == r.value;
    }
    LookupFinds(s', r.value);
  }

  /** The login token, decoded by the bearer dependency, yields the user's id
      whenever decoding inverts encoding. */
  lemma LoginTokenIdentifiesUser(s: Store, u: User, password: string, verify: Verifier, encode: Encoder, decode: PortfolioEndpoints.TokenDecoder)
    requires UsersSound(s) && u in s.users && verify(password, u.hashedPassword)
    requires decode(encode(Claims(Some(u.id)), AccessTokenExpireMinutes)) == Some(Claims(Some(u.id)))
    ensures Login(s, u.email, password, verify, encode).Answer?
    ensures PortfolioEndpoints.CurrentUserId(Login(s, u.email, password, verify, encode).value.accessToken, decode)
            == Answer(Some(u.id))
  {
    LookupFinds(s, u);
  }
}
