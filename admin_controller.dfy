/** The admin endpoints: listings without secrets, the role change and delete
    guard chains, and the dashboard counters. The routes put `authenticate`
    and `authorize('admin')` in front of all of them, so `actor` is the
    authenticated caller's id. */
module AdminController {
  import opened Types
  import opened UserStore
  import Jwt
  import AuthService
  import AuthMiddleware

  const InvalidRole := HttpError(400, "Invalid role. Must be \"user\" or \"admin\"")
  const CannotDemoteSelf := HttpError(403, "Cannot demote yourself")
  const CannotDeleteSelf := HttpError(403, "Cannot delete yourself")

  /** The body of the `getAllUsers` answer. */
  datatype Listing = Listing(users: map<UserId, PublicUser>, count: nat)

  /** The `user` object of the `updateUserRole` answer. */
  datatype RoleView = RoleView(id: UserId, email: string, role: string)

  datatype Stats = Stats(
    totalUsers: nat,
    totalAdmins: nat,
    totalRegularUsers: nat,
    verifiedUsers: nat,
    unverifiedUsers: int)

  /** Two stores that differ at most in credentials and refresh tokens. */
  ghost predicate SameButSecrets(users: map<UserId, User>, users': map<UserId, User>) {
    && users.Keys == users'.Keys
    && forall id :: id in users ==>
         users'[id].(password := users[id].password, refreshTokens := users[id].refreshTokens) == users[id]
  }

  /** `getAllUsers`: every record, projected without password and tokens. */
  function GetAllUsers(users: map<UserId, User>): (r: Listing)
    ensures r.users.Keys == users.Keys && r.count == |users|
    ensures forall id :: id in r.users ==> r.users[id] == PublicView(id, users[id])
  {
    Listing(map id | id in users :: PublicView(id, users[id]), |users|)
  }

  /** The listing reveals nothing about credentials or refresh tokens. */
  lemma ListingHidesSecrets(users: map<UserId, User>, users': map<UserId, User>)
    requires SameButSecrets(users, users')
    ensures GetAllUsers(users) == GetAllUsers(users')
  {
    var a, b := GetAllUsers(users), GetAllUsers(users');
    assert |users| == |users.Keys| == |users'.Keys| == |users'|;
    forall id | id in a.users
      ensures a.users[id] == b.users[id]
    {
      assert users'[id].(password := users[id].password, refreshTokens := users[id].refreshTokens) == users[id];
    }
    assert a.users == b.users;
  }

  /** `getUserById`: the projected record, or 404. */
  function GetUserById(users: map<UserId, User>, userId: UserId): (r: Result<PublicUser, HttpError>)
    ensures r.Err? <==> userId !in users
    ensures r.Err? ==> r.error == AuthService.UserNotFound
    ensures r.Ok? ==> r.value == PublicView(userId, users[userId])
  {
    if userId in users then Ok(PublicView(userId, users[userId])) else Err(AuthService.UserNotFound)
  }

  /** The single-record view reveals nothing about credentials or refresh tokens. */
  lemma SingleViewHidesSecrets(users: map<UserId, User>, users': map<UserId, User>, userId: UserId)
    requires SameButSecrets(users, users')
    ensures GetUserById(users, userId) == GetUserById(users', userId)
  {
    if userId in users {
      assert users'[userId].(password := users[userId].password, refreshTokens := users[userId].refreshTokens) == users[userId];
    }
  }

  /** The store `updateUserRole` leaves behind, or the error it answers:
      role check, then lookup, then the self-demotion guard, then the write. */
  function RoleChange(users: map<UserId, User>, actor: UserId, userId: UserId, role: string): (r: Result<map<UserId, User>, HttpError>)
    ensures r.Err? ==> r.error in {InvalidRole, AuthService.UserNotFound, CannotDemoteSelf}
    ensures !IsKnownRole(role) ==> r == Err(InvalidRole)
    ensures IsKnownRole(role) && userId !in users ==> r == Err(AuthService.UserNotFound)
    ensures IsKnownRole(role) && userId in users && userId == actor && role == UserRole ==> r == Err(CannotDemoteSelf)
    ensures r.Ok? ==> IsKnownRole(role) && userId in users && r.value.Keys == users.Keys && r.value[userId].role == role
    ensures r.Ok? && userId == actor ==> role == AdminRole
  {
    if !IsKnownRole(role) then Err(InvalidRole)
    else if userId !in users then Err(AuthService.UserNotFound)
    else if userId == actor && role == UserRole then Err(CannotDemoteSelf)
    else Ok(users[userId := users[userId].(role := role)])
  }

  /** An unknown role is refused whatever the store holds and whoever asks. */
  lemma RoleCheckedBeforeLookup(users: map<UserId, User>, actor: UserId, userId: UserId, role: string)
    requires !IsKnownRole(role)
    ensures RoleChange(users, actor, userId, role) == Err(InvalidRole)
  {
  }

  /** A successful role change rewrites the target's role and nothing else. */
  lemma RoleChangeTouchesOnlyTarget(users: map<UserId, User>, actor: UserId, userId: UserId, role: string)
    requires RoleChange(users, actor, userId, role).Ok?
    ensures var m := RoleChange(users, actor, userId, role).value;
      && IsKnownRole(role)
      && m.Keys == users.Keys
      && m[userId] == users[userId].(role := role)
      && forall id :: id in users && id != userId ==> m[id] == users[id]
  {
  }

  /** The role change succeeds exactly when the role is known, the target
      exists and it is not the actor setting themself to 'user'. */
  lemma RoleChangeSucceedsIff(users: map<UserId, User>, actor: UserId, userId: UserId, role: string)
    ensures RoleChange(users, actor, userId, role).Ok?
        <==> IsKnownRole(role) && userId in users && !(userId == actor && role == UserRole)
  {
  }

  /** Whatever an admin does through `updateUserRole`, they stay an admin. */
  lemma ActorKeepsAdminRole(users: map<UserId, User>, actor: UserId, userId: UserId, role: string)
    requires actor in users && users[actor].role == AdminRole
    requires RoleChange(users, actor, userId, role).Ok?
    ensures var m := RoleChange(users, actor, userId, role).value;
      actor in m && m[actor].role == AdminRole
  {
  }

  /** `updateUserRole` as the controller runs it against the store. */
  method UpdateUserRole(db: UserCollection, actor: UserId, userId: UserId, role: string) returns (r: Result<RoleView, HttpError>)
    requires db.Valid()
    modifies db
    ensures db.Valid() && db.nextId == old(db.nextId)
    ensures RoleChange(old(db.users), actor, userId, role).Err? ==>
      r == Err(RoleChange(old(db.users), actor, userId, role).error) && db.users == old(db.users)
    ensures RoleChange(old(db.users), actor, userId, role).Ok? ==>
      && db.users == RoleChange(old(db.users), actor, userId, role).value
      && r == Ok(RoleView(userId, db.users[userId].email, role))
  {
    if !IsKnownRole(role) {
      return Err(InvalidRole);
    }
    if userId !in db.users {
      return Err(AuthService.UserNotFound);
    }
    var user := db.users[userId];
    if userId == actor && role == UserRole {
      return Err(CannotDemoteSelf);
    }
    user := user.(role := role);
    db.Save(userId, user);
    r := Ok(RoleView(userId, user.email, user.role));
  }

  /** The store `deleteUser` leaves behind, or the error it answers:
      lookup, then the self-delete guard, then the delete. */
  function Deletion(users: map<UserId, User>, actor: UserId, userId: UserId): (r: Result<map<UserId, User>, HttpError>)
    ensures r.Err? ==> r.error in {AuthService.UserNotFound, CannotDeleteSelf}
    ensures userId !in users ==> r == Err(AuthService.UserNotFound)
    ensures userId in users && userId == actor ==> r == Err(CannotDeleteSelf)
    ensures r.Err? <==> userId !in users || userId == actor
    ensures r.Ok? ==> userId !in r.value && (actor in users ==> actor in r.value)
  {
    if userId !in users then Err(AuthService.UserNotFound)
    else if userId == actor then Err(CannotDeleteSelf)
    else Ok(users - {userId})
  }

  /** A successful delete removes exactly the target, and never the actor. */
  lemma DeletionRemovesOnlyTarget(users: map<UserId, User>, actor: UserId, userId: UserId)
    requires Deletion(users, actor, userId).Ok?
    ensures var m := Deletion(users, actor, userId).value;
      && userId in users && userId != actor
      && m.Keys == users.Keys - {userId}
      && |m| == |users| - 1
      && forall id :: id in m ==> m[id] == users[id]
  {
    var m := Deletion(users, actor, userId).value;
    assert m.Keys == users.Keys - {userId};
  }

  /** `deleteUser` as the controller runs it against the store. */
  method DeleteUser(db: UserCollection, actor: UserId, userId: UserId) returns (r: Result<UserId, HttpError>)
    requires db.Valid()
    modifies db
    ensures db.Valid() && db.nextId == old(db.nextId)
    ensures Deletion(old(db.users), actor, userId).Err? ==>
      r == Err(Deletion(old(db.users), actor, userId).error) && db.users == old(db.users)
    ensures Deletion(old(db.users), actor, userId).Ok? ==>
      db.users == Deletion(old(db.users), actor, userId).value && r == Ok(userId)
  {
    if userId !in db.users {
      return Err(AuthService.UserNotFound);
    }
    if userId == actor {
      return Err(CannotDeleteSelf);
    }
    db.Delete(userId);
    r := Ok(userId);
  }

  function AdminIds(users: map<UserId, User>): set<UserId> {
    set id | id in users && users[id].role == AdminRole
  }

  function RegularIds(users: map<UserId, User>): set<UserId> {
    set id | id in users && users[id].role == UserRole
  }

  function VerifiedIds(users: map<UserId, User>): set<UserId> {
    set id | id in users && users[id].isVerified
  }

  function UnverifiedIds(users: map<UserId, User>): set<UserId> {
    set id | id in users && !users[id].isVerified
  }

  /** A store splits into the records that pass a test and those that fail it. */
  lemma SplitCount(users: map<UserId, User>, yes: set<UserId>, no: set<UserId>)
    requires yes + no == users.Keys && yes !! no
    ensures |yes| + |no| == |users|
  {
    assert |users| == |users.Keys|;
  }

  /** When every stored role is known, admins and regular users make up the store. */
  lemma KnownRolesSplit(users: map<UserId, User>)
    ensures (forall id :: id in users ==> IsKnownRole(users[id].role)) ==>
              |AdminIds(users)| + |RegularIds(users)| == |users|
  {
    if forall id :: id in users ==> IsKnownRole(users[id].role) {
      SplitCount(users, AdminIds(users), RegularIds(users));
    }
  }

  /** `getDashboardStats`: the counters and `unverifiedUsers = totalUsers - verifiedUsers`. */
  function DashboardStats(users: map<UserId, User>): (s: Stats)
    ensures s.totalUsers == |users|
    ensures s.unverifiedUsers == |UnverifiedIds(users)|
    ensures (forall id :: id in users ==> IsKnownRole(users[id].role)) ==>
              s.totalAdmins + s.totalRegularUsers == s.totalUsers
  {
    SplitCount(users, VerifiedIds(users), UnverifiedIds(users));
    KnownRolesSplit(users);
    Stats(|users|, |AdminIds(users)|, |RegularIds(users)|, |VerifiedIds(users)|, |users| - |VerifiedIds(users)|)
  }

  /** An admin acting through the admin endpoints never leaves the store without an admin. */
  lemma AdminsNeverRunOut(users: map<UserId, User>, actor: UserId, userId: UserId, role: string)
    requires actor in users && users[actor].role == AdminRole
    ensures RoleChange(users, actor, userId, role).Ok? ==>
              DashboardStats(RoleChange(users, actor, userId, role).value).totalAdmins >= 1
    ensures Deletion(users, actor, userId).Ok? ==>
              DashboardStats(Deletion(users, actor, userId).value).totalAdmins >= 1
  {
    if RoleChange(users, actor, userId, role).Ok? {
      var m := RoleChange(users, actor, userId, role).value;
      ActorKeepsAdminRole(users, actor, userId, role);
      assert actor in AdminIds(m);
    }
    if Deletion(users, actor, userId).Ok? {
      var m := Deletion(users, actor, userId).value;
      assert actor in AdminIds(m);
    }
  }

  /** The admin endpoints keep the service's session invariant: every held
      refresh token stays signed for its holder and never retired. */
  lemma AdminChangesKeepSessions(users: map<UserId, User>, keys: map<string, Jwt.Claims>, retired: set<string>,
                                 actor: UserId, userId: UserId, role: string)
    requires AuthService.SessionsSigned(users, keys) && AuthService.NoneRetired(users, retired)
    ensures RoleChange(users, actor, userId, role).Ok? ==>
      AuthService.SessionsSigned(RoleChange(users, actor, userId, role).value, keys)
      && AuthService.NoneRetired(RoleChange(users, actor, userId, role).value, retired)
    ensures Deletion(users, actor, userId).Ok? ==>
      AuthService.SessionsSigned(Deletion(users, actor, userId).value, keys)
      && AuthService.NoneRetired(Deletion(users, actor, userId).value, retired)
  {
  }

  /** A deleted user's identifier is never handed out again: a registration
      after the delete gets another id, and neither that registration nor a
      later refresh by anyone re-points the deleted user's access token, so it
      still admits no one. */
  method DeleteThenRegisterAndRefresh(svc: AuthService.AuthService, actor: UserId, userId: UserId,
                                      email: string, password: string, presented: string, now: int, t: string)
    returns (del: Result<UserId, HttpError>, reg: Result<AuthService.Session, HttpError>,
             refreshed: Result<AuthTokens, HttpError>)
    requires svc.Valid()
    requires t in svc.jwt.accessKeys && svc.jwt.accessKeys[t].payload.userId == userId
    modifies svc, svc.db, svc.jwt
    ensures svc.Valid()
    ensures del.Ok? && reg.Ok? ==> reg.value.id != userId
    ensures del.Ok? ==>
      AuthMiddleware.Authenticate(Some(AuthMiddleware.BearerPrefix + t), svc.jwt.accessKeys, svc.db.users, now).Reject?
  {
    AdminChangesKeepSessions(svc.db.users, svc.jwt.refreshKeys, svc.retired, actor, userId, "");
    del := DeleteUser(svc.db, actor, userId);
    reg := svc.Register(email, password, now);
    refreshed := svc.RefreshAccessToken(presented, now);
    if del.Ok? {
      AuthMiddleware.BearerRoundTrip(t);
    }
  }
}
