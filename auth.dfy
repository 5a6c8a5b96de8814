/** Credentials and bearer tokens of the finance tracker's API (main.py).

    bcrypt and the JWT codec are not modelled as cryptography: the password context is a
    pair of functions supplied by the caller, and a token is its claims together with a flag
    saying whether its signature checks out under the server's key. */
module Auth {
  import opened Records

  // ---------------------------------------------------------------------------
  // Passwords

  /** `CryptContext(schemes=["bcrypt"])`: `hash(password, salt)` and `verify(password, hash)`.
      The salt stands for the randomness bcrypt draws on each call. */
  datatype PasswordContext = PasswordContext(hash: (string, string) -> string, verify: (string, string) -> bool)

  /** The one property of bcrypt the API relies on: a password verifies against its own hash. */
  ghost predicate Sound(ctx: PasswordContext)
  {
    forall password, salt :: ctx.verify(password, ctx.hash(password, salt))
  }

  /** A user table in which no two users share a name (the `unique=True` column). */
  predicate UniqueNames(users: seq<User>)
  {
    forall i, j :: 0 <= i < j < |users| ==> users[i].username != users[j].username
  }

  /** `get_user_by_username`: the first user with that name, if any. */
  function FindUser(users: seq<User>, username: string): (r: Option<User>)
    ensures r.None? <==> forall u :: u in users ==> u.username != username
    ensures r.Some? ==> exists i :: 0 <= i < |users| && users[i] == r.value && r.value.username == username
                          && forall j :: 0 <= j < i ==> users[j].username != username
  {
    if users == [] then None
    else if users[0].username == username then Some(users[0])
    else
      var r := FindUser(users[1..], username);
      assert users == [users[0]] + users[1..];
      if r.Some? then
        var i :| 0 <= i < |users[1..]| && users[1..][i] == r.value && r.value.username == username
                 && forall j :: 0 <= j < i ==> users[1..][j].username != username;
        assert users[i + 1] == r.value;
        r
      else r
  }

  /** In a table with unique names, the lookup finds exactly the user that carries the name. */
  lemma FindUniqueUser(users: seq<User>, u: User)
    requires UniqueNames(users) && u in users
    ensures FindUser(users, u.username) == Some(u)
  {
    var r := FindUser(users, u.username);
    var i :| 0 <= i < |users| && users[i] == r.value && r.value.username == u.username
             && forall j :: 0 <= j < i ==> users[j].username != u.username;
    var k :| 0 <= k < |users| && users[k] == u;
  }

  /** A user appended under a new name is found under that name, and nothing else is found
      differently. */
  lemma {:induction false} FindAfterAppend(users: seq<User>, u: User, username: string)
    requires FindUser(users, u.username).None?
    ensures FindUser(users + [u], username)
         == if username == u.username then Some(u) else FindUser(users, username)
  {
    if users != [] {
      assert (users + [u])[1..] == users[1..] + [u];
      if users[0].username != username {
        FindAfterAppend(users[1..], u, username);
      }
    }
  }

  /** `authenticate_user`: the stored user, when the name is known and the password verifies
      against the stored hash; nothing otherwise. */
  function AuthenticateUser(users: seq<User>, username: string, password: string, ctx: PasswordContext): (r: Option<User>)
    ensures r.Some? <==> FindUser(users, username).Some? && ctx.verify(password, FindUser(users, username).value.password)
    ensures r.Some? ==> r.value == FindUser(users, username).value && r.value in users && r.value.username == username
  {
    match FindUser(users, username)
    case None => None
    case Some(user) => if ctx.verify(password, user.password) then Some(user) else None
  }

  /** An unknown name never authenticates, whatever the password. */
  lemma UnknownUserRejected(users: seq<User>, username: string, password: string, ctx: PasswordContext)
    requires forall u :: u in users ==> u.username != username
    ensures AuthenticateUser(users, username, password, ctx).None?
  {
  }

  /** With a sound context, a user registered with `hash(password, salt)` authenticates with
      `password`, and the registration leaves every other name's outcome as it was. */
  lemma RegisteredUserAuthenticates(users: seq<User>, id: int, username: string, password: string, salt: string,
                                    ctx: PasswordContext, other: string, otherPassword: string)
    requires Sound(ctx)
    requires FindUser(users, username).None?
    ensures var u := User(id, username, ctx.hash(password, salt));
      AuthenticateUser(users + [u], username, password, ctx) == Some(u)
    ensures var u := User(id, username, ctx.hash(password, salt));
      other != username ==>
        AuthenticateUser(users + [u], other, otherPassword, ctx) == AuthenticateUser(users, other, otherPassword, ctx)
  {
    var u := User(id, username, ctx.hash(password, salt));
    FindAfterAppend(users, u, username);
    FindAfterAppend(users, u, other);
  }

  // ---------------------------------------------------------------------------
  // Tokens

  /** A claim value as the token carries it: a string, or an instant in whole seconds since
      the epoch. */
  datatype Claim = Text(text: string) | Instant(seconds: int)

  /** A JWT: its claims, and whether its HS256 signature checks out under `SECRET_KEY`. */
  datatype Token = Token(claims: map<string, Claim>, signed: bool)

  /** `timedelta(minutes=15)`, used when the caller passes no lifetime. */
  const DefaultLifetime: int := 15 * 60

  /** `ACCESS_TOKEN_EXPIRE_MINUTES = 30`, in seconds. */
  const AccessTokenLifetime: int := 30 * 60

  /** `expires_delta or timedelta(minutes=15)`: a missing lifetime and a zero lifetime (a
      falsy `timedelta`) both fall back to the default. */
  function Lifetime(expiresDelta: Option<int>): (seconds: int)
    ensures expiresDelta.Some? && expiresDelta.value != 0 ==> seconds == expiresDelta.value
    ensures expiresDelta.None? || expiresDelta.value == 0 ==> seconds == DefaultLifetime
  {
    if expiresDelta.None? || expiresDelta.value == 0 then DefaultLifetime else expiresDelta.value
  }

  /** `create_access_token`: a copy of `data` with `exp` set to `now` plus the lifetime,
      signed with the server's key. */
  method CreateAccessToken(data: map<string, Claim>, expiresDelta: Option<int>, now: int) returns (token: Token)
    ensures token.signed
    ensures "exp" in token.claims && token.claims["exp"] == Instant(now + Lifetime(expiresDelta))
    ensures forall k :: k in data && k != "exp" ==> k in token.claims && token.claims[k] == data[k]
    ensures forall k :: k in token.claims ==> k in data || k == "exp"
  {
    var toEncode := data;
    toEncode := toEncode["exp" := Instant(now + Lifetime(expiresDelta))];
    token := Token(toEncode, true);
  }

  /** Why `jwt.decode` refuses a token; each is a `JWTError`. */
  datatype DecodeError = BadSignature | BadClaim | Expired

  /** `jwt.decode(token, SECRET_KEY, algorithms=[ALGORITHM])` at time `now`: the signature must
      check out, `exp` (when present) must be an instant not before `now`, and `sub` (when
      present) must be a string. */
  function Decode(token: Token, now: int): (r: Result<map<string, Claim>, DecodeError>)
    ensures r.Ok? <==> && token.signed
                       && ("exp" in token.claims ==> token.claims["exp"].Instant? && now <= token.claims["exp"].seconds)
                       && ("sub" in token.claims ==> token.claims["sub"].Text?)
    ensures r.Ok? ==> r.value == token.claims
  {
    if !token.signed then Err(BadSignature)
    else if "exp" in token.claims && !token.claims["exp"].Instant? then Err(BadClaim)
    else if "exp" in token.claims && token.claims["exp"].seconds < now then Err(Expired)
    else if "sub" in token.claims && !token.claims["sub"].Text? then Err(BadClaim)
    else Ok(token.claims)
  }

  /** `get_current_user`: the user named by the token's `sub`; refused when the token does
      not decode, carries no `sub`, or names no stored user. */
  function GetCurrentUser(users: seq<User>, token: Token, now: int): (r: Result<User, Failure>)
    ensures r.Ok? <==> && Decode(token, now).Ok?
                       && "sub" in token.claims
                       && FindUser(users, token.claims["sub"].text).Some?
    ensures r.Ok? ==> r.value == FindUser(users, token.claims["sub"].text).value
                      && r.value in users && r.value.username == token.claims["sub"].text
    ensures r.Err? ==> r.error == NotAuthenticated
  {
    match Decode(token, now)
    case Err(_) => Err(NotAuthenticated)
    case Ok(payload) =>
      if "sub" !in payload then Err(NotAuthenticated)
      else match FindUser(users, payload["sub"].text)
        case None => Err(NotAuthenticated)
        case Some(user) => Ok(user)
  }

  /** `login_for_access_token`: on valid credentials, a token whose `sub` is the user's name
      and that expires `ACCESS_TOKEN_EXPIRE_MINUTES` after `now`. */
  method LoginForAccessToken(users: seq<User>, username: string, password: string, ctx: PasswordContext, now: int)
    returns (r: Result<Token, Failure>)
    ensures r.Ok? <==> AuthenticateUser(users, username, password, ctx).Some?
    ensures r.Err? ==> r.error == InvalidCredentials
    ensures r.Ok? ==> r.value == LoginToken(AuthenticateUser(users, username, password, ctx).value.username, now)
  {
    var user := AuthenticateUser(users, username, password, ctx);
    if user.None? {
      return Err(InvalidCredentials);
    }
    var token := CreateAccessToken(map["sub" := Text(user.value.username)], Some(AccessTokenLifetime), now);
    assert token.claims == LoginToken(user.value.username, now).claims;
    r := Ok(token);
  }

  /** The token a login at `now` hands out for `username`. */
  function LoginToken(username: string, now: int): (token: Token)
    ensures Decode(token, now).Ok?
    ensures "sub" in token.claims && token.claims["sub"] == Text(username)
    ensures "exp" in token.claims && token.claims["exp"] == Instant(now + AccessTokenLifetime)
  {
    Token(map["sub" := Text(username), "exp" := Instant(now + AccessTokenLifetime)], true)
  }

  /** A login token is accepted, and names its user, at every instant from its issue until its
      expiry thirty minutes later, as long as the user is still stored. */
  lemma LoginTokenAcceptedUntilExpiry(users: seq<User>, username: string, issued: int, now: int)
    requires FindUser(users, username).Some?
    requires now <= issued + AccessTokenLifetime
    ensures GetCurrentUser(users, LoginToken(username, issued), now) == Ok(FindUser(users, username).value)
  {
  }

  /** After its thirty minutes a login token is refused, whoever is stored. */
  lemma LoginTokenExpires(users: seq<User>, username: string, issued: int, now: int)
    requires now > issued + AccessTokenLifetime
    ensures GetCurrentUser(users, LoginToken(username, issued), now) == Err(NotAuthenticated)
  {
  }

  /** A token whose user has gone is refused even before it expires. */
  lemma LoginTokenOfUnknownUserRefused(users: seq<User>, username: string, issued: int, now: int)
    requires FindUser(users, username).None?
    ensures GetCurrentUser(users, LoginToken(username, issued), now) == Err(NotAuthenticated)
  {
  }

  /** Logging in with the password a user registered with yields a token that, until it
      expires, authenticates that same user. */
  lemma {:induction false} LoginRoundTrip(users: seq<User>, u: User, password: string, salt: string,
                                          ctx: PasswordContext, issued: int, now: int)
    requires Sound(ctx) && UniqueNames(users)
    requires u in users && u.password == ctx.hash(password, salt)
    requires issued <= now <= issued + AccessTokenLifetime
    ensures AuthenticateUser(users, u.username, password, ctx) == Some(u)
    ensures GetCurrentUser(users, LoginToken(u.username, issued), now) == Ok(u)
  {
    FindUniqueUser(users, u);
  }
}
