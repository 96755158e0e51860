/** The access gate: `authenticate` reads the bearer token, verifies it with
    the access secret and loads the caller's record; `authorize` compares the
    loaded record's role with the roles a route admits. */
module AuthMiddleware {
  import opened Types
  import opened Jwt

  const BearerPrefix: string := "Bearer "
  const NoTokenProvided := HttpError(401, "No token provided")
  const UnknownCaller := HttpError(401, "User not found")
  const InvalidOrExpiredToken := HttpError(401, "Invalid or expired token")
  const Unauthorized := HttpError(401, "Unauthorized")
  const InsufficientPermissions := HttpError(403, "Forbidden: Insufficient permissions")

  /** The token of an `Authorization` header: present only when the header
      starts with 'Bearer ', and then everything after those seven characters. */
  function BearerToken(header: Option<string>): (r: Option<string>)
    ensures r.Some? <==> header.Some? && |BearerPrefix| <= |header.value| && header.value[..|BearerPrefix|] == BearerPrefix
    ensures r.Some? ==> header.value == BearerPrefix + r.value
  {
    if header.None? || |header.value| < |BearerPrefix| || header.value[..|BearerPrefix|] != BearerPrefix then None
    else
      assert header.value == header.value[..|BearerPrefix|] + header.value[|BearerPrefix|..];
      Some(header.value[|BearerPrefix|..])
  }

  /** For the header "Bearer " + t the token verified is exactly t. */
  lemma BearerRoundTrip(t: string)
    ensures BearerToken(Some(BearerPrefix + t)) == Some(t)
  {
    var h := BearerPrefix + t;
    assert h[..|BearerPrefix|] == BearerPrefix;
    assert h[|BearerPrefix|..] == t;
  }

  /** What `authenticate` decides: the caller's id and stored record
      (`req.user`), or the 401 it answers with. */
  datatype Gate = Admit(id: UserId, user: User) | Reject(error: HttpError)

  /** `authenticate` at clock `now` against the access keyring and the store. */
  function Authenticate(header: Option<string>, accessKeys: map<string, Claims>, users: map<UserId, User>, now: int): (r: Gate)
    ensures r.Reject? ==> r.error.status == 401
    ensures r.Admit? ==> r.id in users && r.user == users[r.id]
    ensures r.Admit? <==>
      && BearerToken(header).Some?
      && BearerToken(header).value in accessKeys
      && now < accessKeys[BearerToken(header).value].exp
      && accessKeys[BearerToken(header).value].payload.userId in users
    ensures r.Admit? ==> r.id == accessKeys[BearerToken(header).value].payload.userId
  {
    match BearerToken(header)
    case None => Reject(NoTokenProvided)
    case Some(token) =>
      match Verify(accessKeys, token, now)
      case Err(_) => Reject(InvalidOrExpiredToken)
      case Ok(payload) =>
        if payload.userId !in users then Reject(UnknownCaller)
        else Admit(payload.userId, users[payload.userId])
  }

  /** A missing header, or one without the 'Bearer ' prefix, is answered 'No token provided'. */
  lemma MissingBearerRejected(header: Option<string>, accessKeys: map<string, Claims>, users: map<UserId, User>, now: int)
    requires header.None? || !(|BearerPrefix| <= |header.value| && header.value[..|BearerPrefix|] == BearerPrefix)
    ensures Authenticate(header, accessKeys, users, now) == Reject(NoTokenProvided)
  {
  }

  /** An unexpired access token for an existing record admits that record. */
  lemma IssuedAccessTokenAdmits(t: string, accessKeys: map<string, Claims>, users: map<UserId, User>, now: int)
    requires t in accessKeys && now < accessKeys[t].exp
    requires accessKeys[t].payload.userId in users
    ensures var id := accessKeys[t].payload.userId;
            Authenticate(Some(BearerPrefix + t), accessKeys, users, now) == Admit(id, users[id])
  {
    BearerRoundTrip(t);
  }

  /** A token the access secret did not sign is answered 'Invalid or expired
      token', as is an expired one. A refresh token is such a token only while
      the two secrets differ, which the model assumes. */
  lemma UnverifiedTokenRejected(t: string, accessKeys: map<string, Claims>, users: map<UserId, User>, now: int)
    requires t !in accessKeys || accessKeys[t].exp <= now
    ensures Authenticate(Some(BearerPrefix + t), accessKeys, users, now) == Reject(InvalidOrExpiredToken)
  {
    BearerRoundTrip(t);
  }

  /** A verified token whose subject is gone is answered 'User not found'. */
  lemma DeletedCallerRejected(t: string, accessKeys: map<string, Claims>, users: map<UserId, User>, now: int)
    requires t in accessKeys && now < accessKeys[t].exp
    requires accessKeys[t].payload.userId !in users
    ensures Authenticate(Some(BearerPrefix + t), accessKeys, users, now) == Reject(UnknownCaller)
  {
    BearerRoundTrip(t);
  }

  /** Access tokens are stateless: revoking refresh tokens does not change who is admitted. */
  lemma AccessOutlivesRevocation(header: Option<string>, accessKeys: map<string, Claims>, users: map<UserId, User>,
                                 now: int, id: UserId, remaining: seq<string>)
    requires id in users
    ensures var after := users[id := users[id].(refreshTokens := remaining)];
            var before := Authenticate(header, accessKeys, users, now);
            var now' := Authenticate(header, accessKeys, after, now);
            now'.Admit? == before.Admit? && (before.Admit? ==> now'.id == before.id)
  {
  }

  /** What `authorize(...roles)` decides. */
  datatype Decision = Allow | Deny(error: HttpError)

  /** `authorize(...roles)` applied to `req.user`. */
  function Authorize(user: Option<User>, roles: seq<string>): (r: Decision)
    ensures r == Allow <==> user.Some? && user.value.role in roles
    ensures user.None? ==> r == Deny(Unauthorized)
    ensures user.Some? && user.value.role !in roles ==> r == Deny(InsufficientPermissions)
  {
    if user.None? then Deny(Unauthorized)
    else if user.value.role !in roles then Deny(InsufficientPermissions)
    else Allow
  }

  /** With no roles listed every authenticated caller is refused with 403. */
  lemma EmptyRoleListDeniesAll(u: User)
    ensures Authorize(Some(u), []) == Deny(InsufficientPermissions)
  {
  }

  /** The chain `authenticate, authorize(...roles)` in front of the admin routes. */
  function Guard(header: Option<string>, accessKeys: map<string, Claims>, users: map<UserId, User>, now: int,
                 roles: seq<string>): (r: Decision)
    ensures r == Allow <==>
      Authenticate(header, accessKeys, users, now).Admit? && Authenticate(header, accessKeys, users, now).user.role in roles
    ensures Authenticate(header, accessKeys, users, now).Reject? ==>
      r == Deny(Authenticate(header, accessKeys, users, now).error) && r.error.status == 401
    ensures Authenticate(header, accessKeys, users, now).Admit? && r != Allow ==> r == Deny(InsufficientPermissions)
  {
    match Authenticate(header, accessKeys, users, now)
    case Reject(e) => Deny(e)
    case Admit(_, u) => Authorize(Some(u), roles)
  }

  /** The admin routes admit a caller only if the caller's STORED record is an
      admin now: the role signed into the access token is never consulted. */
  lemma AdminGateReadsStoredRole(header: Option<string>, accessKeys: map<string, Claims>, users: map<UserId, User>, now: int)
    ensures Guard(header, accessKeys, users, now, [AdminRole]) == Allow <==>
      && BearerToken(header).Some?
      && BearerToken(header).value in accessKeys
      && now < accessKeys[BearerToken(header).value].exp
      && accessKeys[BearerToken(header).value].payload.userId in users
      && users[accessKeys[BearerToken(header).value].payload.userId].role == AdminRole
  {
  }
}
