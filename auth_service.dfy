/** The authentication service: registration, login, refresh-token rotation and
    revocation over the user collection and the token signer. Every call is one
    atomic step on the store. */
module AuthService {
  import opened Types
  import opened Jwt
  import opened UserStore

  const RegistrationRefused := HttpError(400, "Unable to complete registration. Please try again or contact support.")
  const InvalidCredentials := HttpError(401, "Invalid credentials")
  const InvalidRefreshToken := HttpError(401, "Invalid or expired refresh token")
  const UserNotFound := HttpError(404, "User not found")

  /** What register and login hand back: the record's id, the record as the
      service holds it at return, and the new pair. */
  datatype Session = Session(id: UserId, user: User, tokens: AuthTokens)

  /** `tokens.filter((token) => token !== t)`. */
  function Without(s: seq<string>, t: string): (r: seq<string>)
    ensures forall x :: x in r <==> x in s && x != t
    ensures |r| <= |s|
  {
    if s == [] then []
    else if s[0] == t then Without(s[1..], t)
    else [s[0]] + Without(s[1..], t)
  }

  /** Filtering drops every occurrence of `t` and keeps every other one. */
  lemma {:induction false} WithoutCounts(s: seq<string>, t: string)
    ensures multiset(Without(s, t)) == multiset(s)[t := 0]
  {
    if s != [] {
      WithoutCounts(s[1..], t);
      assert s == [s[0]] + s[1..];
    }
  }

  /** Filtering keeps the relative order: it distributes over concatenation. */
  lemma {:induction false} WithoutAppend(a: seq<string>, b: seq<string>, t: string)
    ensures Without(a + b, t) == Without(a, t) + Without(b, t)
  {
    if a != [] {
      WithoutAppend(a[1..], b, t);
      assert (a + b)[0] == a[0] && (a + b)[1..] == a[1..] + b;
      if a[0] != t {
        assert [a[0]] + (Without(a[1..], t) + Without(b, t)) == ([a[0]] + Without(a[1..], t)) + Without(b, t);
      }
    } else {
      assert a + b == b;
    }
  }

  /** Filtering a token that is not there changes nothing. */
  lemma {:induction false} WithoutAbsent(s: seq<string>, t: string)
    requires t !in s
    ensures Without(s, t) == s
  {
    if s != [] {
      WithoutAbsent(s[1..], t);
    }
  }

  /** Logging out twice with the same token is logging out once. */
  lemma WithoutIdempotent(s: seq<string>, t: string)
    ensures Without(Without(s, t), t) == Without(s, t)
  {
    WithoutAbsent(Without(s, t), t);
  }

  /** Every refresh token a record holds was signed with the refresh secret
      over that record's own id. */
  ghost predicate SessionsSigned(users: map<UserId, User>, keys: map<string, Claims>) {
    forall id, t :: id in users && t in users[id].refreshTokens ==> t in keys && keys[t].payload.userId == id
  }

  /** No record holds a token that has been rotated out or logged out. */
  ghost predicate NoneRetired(users: map<UserId, User>, retired: set<string>) {
    forall id, t :: id in users && t in users[id].refreshTokens ==> t !in retired
  }

  /** Under `SessionsSigned`, a token whose subject is `id` is held by no other record. */
  lemma HeldOnlyBySubject(users: map<UserId, User>, keys: map<string, Claims>, t: string, id: UserId, other: UserId)
    requires SessionsSigned(users, keys)
    requires t in keys && keys[t].payload.userId == id
    requires other in users && other != id
    ensures t !in users[other].refreshTokens
  {
  }

  /** A retired token never refreshes again, whatever the store holds, as long
      as no record holds a retired token. */
  lemma RetiredTokenIsRejected(users: map<UserId, User>, keys: map<string, Claims>, retired: set<string>,
                               token: string, now: int)
    requires NoneRetired(users, retired)
    requires token in retired
    ensures RefreshCheck(users, keys, token, now) == Err(InvalidRefreshToken)
  {
    if token in keys && keys[token].payload.userId in users {
      var id := keys[token].payload.userId;
      assert token !in users[id].refreshTokens;
    }
  }

  /** The payload `generateTokens` signs for a record. */
  function PayloadOf(id: UserId, u: User): (p: TokenPayload)
    ensures p.userId == id && p.email == u.email && p.role == u.role
  {
    TokenPayload(id, u.email, u.role)
  }

  /** Some record has this exact email and a credential that accepts `password`. */
  ghost predicate CanLogIn(users: map<UserId, User>, email: string, password: string, matches: (string, string) -> bool) {
    exists id :: id in users && users[id].email == email && matches(users[id].password, password)
  }

  /** The refresh decision: `Ok(subject)` when the token verifies with the
      refresh secret at `now`, its subject exists and still lists it. */
  function RefreshCheck(users: map<UserId, User>, keys: map<string, Claims>, token: string, now: int): (r: Result<UserId, HttpError>)
    ensures r.Err? ==> r.error == InvalidRefreshToken
    ensures r.Ok? <==>
      && token in keys && now < keys[token].exp
      && keys[token].payload.userId in users
      && token in users[keys[token].payload.userId].refreshTokens
    ensures r.Ok? ==> r.value == keys[token].payload.userId
  {
    match Verify(keys, token, now)
    case Err(_) => Err(InvalidRefreshToken)
    case Ok(payload) =>
      if payload.userId !in users then Err(InvalidRefreshToken)
      else if token !in users[payload.userId].refreshTokens then Err(InvalidRefreshToken)
      else Ok(payload.userId)
  }

  /** The record after rotating `spent` out and `next` in. */
  function Rotated(u: User, spent: string, next: string): (r: User)
    ensures r.refreshTokens == Without(u.refreshTokens, spent) + [next]
    ensures r.(refreshTokens := u.refreshTokens) == u
  {
    u.(refreshTokens := Without(u.refreshTokens, spent) + [next])
  }

  /** Replay defence: once a token has been rotated out, presenting it again
      fails at any later clock, provided the new token was never signed before. */
  lemma RotatedTokenIsRejected(users: map<UserId, User>, keys: map<string, Claims>, token: string, now: int,
                               next: string, claims: Claims, later: int)
    requires RefreshCheck(users, keys, token, now).Ok?
    requires next !in keys
    ensures var id := RefreshCheck(users, keys, token, now).value;
            RefreshCheck(users[id := Rotated(users[id], token, next)], keys[next := claims], token, later)
              == Err(InvalidRefreshToken)
  {
  }

  /** Rotation leaves every other session of every user as it was. */
  lemma RotationKeepsOtherSessions(users: map<UserId, User>, keys: map<string, Claims>, token: string, now: int,
                                   next: string, claims: Claims, other: string, later: int)
    requires RefreshCheck(users, keys, token, now).Ok?
    requires next !in keys && other != token && other != next
    ensures var id := RefreshCheck(users, keys, token, now).value;
            RefreshCheck(users[id := Rotated(users[id], token, next)], keys[next := claims], other, later)
              == RefreshCheck(users, keys, other, later)
  {
    var id := RefreshCheck(users, keys, token, now).value;
    var after := users[id := Rotated(users[id], token, next)];
    assert other in after[id].refreshTokens <==> other in users[id].refreshTokens;
  }

  /** The token a rotation hands out is accepted by the next refresh before it expires. */
  lemma RotatedInTokenIsAccepted(users: map<UserId, User>, keys: map<string, Claims>, token: string, now: int,
                                 next: string, later: int)
    requires RefreshCheck(users, keys, token, now).Ok?
    requires later < now + RefreshTtl
    ensures var id := RefreshCheck(users, keys, token, now).value;
            var claims := Claims(PayloadOf(id, users[id]), now + RefreshTtl);
            RefreshCheck(users[id := Rotated(users[id], token, next)], keys[next := claims], next, later) == Ok(id)
  {
  }

  /** After `logout(id, token)` that token no longer refreshes, if `id` is its subject. */
  lemma LoggedOutTokenIsRejected(users: map<UserId, User>, keys: map<string, Claims>, id: UserId, token: string, later: int)
    requires id in users
    requires token in keys ==> keys[token].payload.userId == id
    ensures RefreshCheck(users[id := users[id].(refreshTokens := Without(users[id].refreshTokens, token))], keys, token, later)
              == Err(InvalidRefreshToken)
  {
  }

  /** After `logoutAll(id)` no token whose subject is `id` refreshes. */
  lemma LoggedOutEverywhere(users: map<UserId, User>, keys: map<string, Claims>, id: UserId, token: string, later: int)
    requires id in users
    requires token in keys ==> keys[token].payload.userId == id
    ensures RefreshCheck(users[id := users[id].(refreshTokens := [])], keys, token, later) == Err(InvalidRefreshToken)
  {
  }

  /** A record just created by `register` can log in with the password it was
      created with, whenever the credential check accepts a password against itself. */
  lemma RegisteredUserCanLogIn(users: map<UserId, User>, id: UserId, email: string, password: string,
                               tokens: seq<string>, matches: (string, string) -> bool)
    requires matches(password, password)
    ensures CanLogIn(users[id := User(email, password, UserRole, false, tokens)], email, password, matches)
  {
    var after := users[id := User(email, password, UserRole, false, tokens)];
    assert id in after && after[id].email == email && matches(after[id].password, password);
  }

  class AuthService {
    const db: UserCollection
    const jwt: TokenSigner
    /** Every refresh token the service has rotated out or logged out. */
    ghost var retired: set<string>

    /** Every held refresh token was signed for its holder and has not been
        retired; every retired token was signed with the refresh secret. */
    ghost predicate Valid()
      reads this, db, jwt
    {
      && db.Valid() && jwt.Valid()
      && SessionsSigned(db.users, jwt.refreshKeys)
      && NoneRetired(db.users, retired)
      && retired <= jwt.refreshKeys.Keys
    }

    constructor (db: UserCollection, jwt: TokenSigner)
      requires db.Valid() && jwt.Valid() && SessionsSigned(db.users, jwt.refreshKeys)
      ensures Valid() && this.db == db && this.jwt == jwt && retired == {}
    {
      this.db := db;
      this.jwt := jwt;
      retired := {};
    }

    /** `generateTokens`: an access and a refresh token over the record's payload. */
    method GenerateTokens(id: UserId, u: User, now: int) returns (tokens: AuthTokens)
      requires jwt.Valid()
      modifies jwt
      ensures jwt.Valid()
      ensures tokens.accessToken !in old(jwt.accessKeys) && tokens.accessToken !in old(jwt.refreshKeys)
      ensures tokens.refreshToken !in old(jwt.accessKeys) && tokens.refreshToken !in old(jwt.refreshKeys)
      ensures tokens.accessToken != tokens.refreshToken
      ensures jwt.accessKeys == old(jwt.accessKeys)[tokens.accessToken := Claims(PayloadOf(id, u), now + AccessTtl)]
      ensures jwt.refreshKeys == old(jwt.refreshKeys)[tokens.refreshToken := Claims(PayloadOf(id, u), now + RefreshTtl)]
    {
      var payload := PayloadOf(id, u);
      var access := jwt.SignAccess(payload, now);
      var refresh := jwt.SignRefresh(payload, now);
      tokens := AuthTokens(access, refresh);
    }

    /** `register`: refused with 400 when the email is taken; otherwise a new
        record with role 'user', unverified, holding only the new refresh token. */
    method Register(email: string, password: string, now: int) returns (r: Result<Session, HttpError>)
      requires Valid()
      modifies db, jwt
      ensures Valid()
      ensures r.Err? <==> EmailTaken(old(db.users), email)
      ensures r.Err? ==> r.error == RegistrationRefused && db.users == old(db.users) && unchanged(jwt)
      ensures db.nextId >= old(db.nextId)
      ensures r.Ok? ==>
        var s := r.value;
        && s.id !in old(db.users) && s.id == old(db.nextId)
        && s.user == User(email, password, UserRole, false, [])
        && db.users == old(db.users)[s.id := s.user.(refreshTokens := [s.tokens.refreshToken])]
        && s.tokens.refreshToken !in old(jwt.refreshKeys) && s.tokens.accessToken !in old(jwt.accessKeys)
        && s.tokens.accessToken !in old(jwt.refreshKeys) && s.tokens.refreshToken !in old(jwt.accessKeys)
        && s.tokens.accessToken != s.tokens.refreshToken
        && jwt.accessKeys == old(jwt.accessKeys)[s.tokens.accessToken := Claims(PayloadOf(s.id, s.user), now + AccessTtl)]
        && jwt.refreshKeys == old(jwt.refreshKeys)[s.tokens.refreshToken := Claims(PayloadOf(s.id, s.user), now + RefreshTtl)]
    {
      var existing := db.FindOne(email);
      if existing.Some? {
        return Err(RegistrationRefused);
      }
      var user := User(email, password, UserRole, false, []);
      var created := db.Create(user);
      var id := created.value;
      var tokens := GenerateTokens(id, user, now);
      var withTokens := db.users[id];
      assert withTokens.refreshTokens + [tokens.refreshToken] == [tokens.refreshToken];
      db.Save(id, withTokens.(refreshTokens := withTokens.refreshTokens + [tokens.refreshToken]));
      r := Ok(Session(id, user, tokens));
    }

    /** `login`: the same 401 for an unknown email and a wrong password;
        otherwise the new refresh token is appended to the record's list. */
    method Login(email: string, password: string, matches: (string, string) -> bool, now: int)
      returns (r: Result<Session, HttpError>)
      requires Valid()
      modifies db, jwt
      ensures Valid()
      ensures r.Err? <==> !CanLogIn(old(db.users), email, password, matches)
      ensures r.Err? ==> r.error == InvalidCredentials && db.users == old(db.users) && unchanged(jwt)
      ensures db.nextId == old(db.nextId)
      ensures r.Ok? ==>
        var s := r.value;
        && s.id in old(db.users)
        && old(db.users)[s.id].email == email
        && matches(old(db.users)[s.id].password, password)
        && s.tokens.refreshToken !in old(jwt.refreshKeys) && s.tokens.accessToken !in old(jwt.accessKeys)
        && s.tokens.accessToken !in old(jwt.refreshKeys) && s.tokens.refreshToken !in old(jwt.accessKeys)
        && s.tokens.accessToken != s.tokens.refreshToken
        && s.user == old(db.users)[s.id].(refreshTokens := old(db.users)[s.id].refreshTokens + [s.tokens.refreshToken])
        && db.users == old(db.users)[s.id := s.user]
        && jwt.accessKeys == old(jwt.accessKeys)[s.tokens.accessToken := Claims(PayloadOf(s.id, s.user), now + AccessTtl)]
        && jwt.refreshKeys == old(jwt.refreshKeys)[s.tokens.refreshToken := Claims(PayloadOf(s.id, s.user), now + RefreshTtl)]
    {
      var found := db.FindOne(email);
      if found.None? {
        return Err(InvalidCredentials);
      }
      var id := found.value;
      var user := db.users[id];
      if !matches(user.password, password) {
        return Err(InvalidCredentials);
      }
      var tokens := GenerateTokens(id, user, now);
      user := user.(refreshTokens := user.refreshTokens + [tokens.refreshToken]);
      db.Save(id, user);
      r := Ok(Session(id, user, tokens));
    }

    /** `refreshAccessToken`: every failure is the same 401 and changes nothing;
        on success the presented token is filtered out of its subject's list,
        the new refresh token appended, and the presented token retired. */
    method RefreshAccessToken(token: string, now: int) returns (r: Result<AuthTokens, HttpError>)
      requires Valid()
      modifies this, db, jwt
      ensures Valid()
      ensures r.Err? <==> RefreshCheck(old(db.users), old(jwt.refreshKeys), token, now).Err?
      ensures r.Err? ==> r.error == InvalidRefreshToken && db.users == old(db.users) && unchanged(jwt) && retired == old(retired)
      ensures db.nextId == old(db.nextId)
      ensures r.Ok? ==>
        var id := RefreshCheck(old(db.users), old(jwt.refreshKeys), token, now).value;
        && r.value.refreshToken !in old(jwt.refreshKeys) && r.value.accessToken !in old(jwt.accessKeys)
        && r.value.accessToken !in old(jwt.refreshKeys) && r.value.refreshToken !in old(jwt.accessKeys)
        && r.value.accessToken != r.value.refreshToken
        && db.users == old(db.users)[id := Rotated(old(db.users)[id], token, r.value.refreshToken)]
        && jwt.accessKeys == old(jwt.accessKeys)[r.value.accessToken := Claims(PayloadOf(id, old(db.users)[id]), now + AccessTtl)]
        && jwt.refreshKeys == old(jwt.refreshKeys)[r.value.refreshToken := Claims(PayloadOf(id, old(db.users)[id]), now + RefreshTtl)]
        && retired == old(retired) + {token}
    {
      var verified := Verify(jwt.refreshKeys, token, now);
      if verified.Err? {
        return Err(InvalidRefreshToken);
      }
      var id := verified.value.userId;
      if id !in db.users {
        return Err(InvalidRefreshToken);
      }
      var user := db.users[id];
      if token !in user.refreshTokens {
        return Err(InvalidRefreshToken);
      }
      var kept := Without(user.refreshTokens, token);
      var tokens := GenerateTokens(id, user, now);
      db.Save(id, user.(refreshTokens := kept + [tokens.refreshToken]));
      retired := retired + {token};
      r := Ok(tokens);
    }

    /** `logout`: 404 for an unknown id; otherwise every occurrence of `token`
        leaves the list and the rest keep their order. A token whose subject
        is `userId` is then retired: no other record can hold it. */
    method Logout(userId: UserId, token: string) returns (r: Result<(), HttpError>)
      requires Valid()
      modifies this, db
      ensures Valid()
      ensures r.Err? <==> userId !in old(db.users)
      ensures r.Err? ==> r.error == UserNotFound && db.users == old(db.users) && retired == old(retired)
      ensures db.nextId == old(db.nextId)
      ensures r.Ok? ==>
        db.users == old(db.users)[userId := old(db.users)[userId].(refreshTokens := Without(old(db.users)[userId].refreshTokens, token))]
      ensures r.Ok? ==>
        retired == old(retired) + (if token in jwt.refreshKeys && jwt.refreshKeys[token].payload.userId == userId then {token} else {})
    {
      if userId !in db.users {
        return Err(UserNotFound);
      }
      var user := db.users[userId];
      db.Save(userId, user.(refreshTokens := Without(user.refreshTokens, token)));
      if token in jwt.refreshKeys && jwt.refreshKeys[token].payload.userId == userId {
        retired := retired + {token};
      }
      r := Ok(());
    }

    /** `logoutAll`: 404 for an unknown id; otherwise the list becomes empty
        and every token it held is retired. */
    method LogoutAll(userId: UserId) returns (r: Result<(), HttpError>)
      requires Valid()
      modifies this, db
      ensures Valid()
      ensures r.Err? <==> userId !in old(db.users)
      ensures r.Err? ==> r.error == UserNotFound && db.users == old(db.users) && retired == old(retired)
      ensures db.nextId == old(db.nextId)
      ensures r.Ok? ==> db.users == old(db.users)[userId := old(db.users)[userId].(refreshTokens := [])]
      ensures r.Ok? ==> retired == old(retired) + set t | t in old(db.users)[userId].refreshTokens
    {
      if userId !in db.users {
        return Err(UserNotFound);
      }
      var user := db.users[userId];
      forall other, t | other in db.users && other != userId && t in user.refreshTokens
        ensures t !in db.users[other].refreshTokens
      {
        HeldOnlyBySubject(db.users, jwt.refreshKeys, t, userId, other);
      }
      db.Save(userId, user.(refreshTokens := []));
      retired := retired + set t | t in user.refreshTokens;
      r := Ok(());
    }
  }

  /** A refresh token, once used, stays refused: a later login of anyone in
      between does not bring it back. */
  method ReplayAfterLogin(svc: AuthService, token: string, email: string, password: string,
                          matches: (string, string) -> bool, now: int, later: int)
    returns (first: Result<AuthTokens, HttpError>, replay: Result<AuthTokens, HttpError>)
    requires svc.Valid()
    modifies svc, svc.db, svc.jwt
    ensures svc.Valid()
    ensures first.Ok? ==> replay == Err(InvalidRefreshToken)
  {
    first := svc.RefreshAccessToken(token, now);
    var _ := svc.Login(email, password, matches, now);
    if first.Ok? {
      RetiredTokenIsRejected(svc.db.users, svc.jwt.refreshKeys, svc.retired, token, later);
    }
    replay := svc.RefreshAccessToken(token, later);
  }

  /** A user who registers can log in at once with the same credentials, and
      the login reaches the record the registration created. */
  method RegisterThenLogin(svc: AuthService, email: string, password: string,
                           matches: (string, string) -> bool, now: int)
    returns (reg: Result<Session, HttpError>, log: Result<Session, HttpError>)
    requires svc.Valid()
    requires matches(password, password)
    modifies svc.db, svc.jwt
    ensures svc.Valid()
    ensures reg.Ok? ==> log.Ok? && log.value.id == reg.value.id
  {
    reg := svc.Register(email, password, now);
    if reg.Ok? {
      RegisteredUserCanLogIn(old(svc.db.users), reg.value.id, email, password, [reg.value.tokens.refreshToken], matches);
    }
    log := svc.Login(email, password, matches, now);
  }
}
