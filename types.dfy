/** Shared records of the service: users as the store keeps them, token payloads
    and pairs, and the (status, message) pair every failure carries. */
module Types {

  datatype Option<+T> = None | Some(value: T)

  datatype Result<+T, +E> = Ok(value: T) | Err(error: E)

  /** Store identifiers. The store assigns them; they are never reused. */
  type UserId = nat

  /** The two role strings the service accepts. */
  const UserRole: string := "user"
  const AdminRole: string := "admin"

  predicate IsKnownRole(role: string) {
    role == UserRole || role == AdminRole
  }

  /** A stored user record. `password` holds what the store keeps for the
      credential (its hash); `refreshTokens` lists the live refresh tokens. */
  datatype User = User(
    email: string,
    password: string,
    role: string,
    isVerified: bool,
    refreshTokens: seq<string>)

  /** What a signed token carries. */
  datatype TokenPayload = TokenPayload(userId: UserId, email: string, role: string)

  datatype AuthTokens = AuthTokens(accessToken: string, refreshToken: string)

  /** An error carrying the HTTP status it is answered with. */
  datatype HttpError = HttpError(status: int, message: string)

  /** A user as the admin views return it: no credential, no tokens. */
  datatype PublicUser = PublicUser(id: UserId, email: string, role: string, isVerified: bool)

  function PublicView(id: UserId, u: User): (p: PublicUser)
    ensures p.id == id && p.email == u.email && p.role == u.role && p.isVerified == u.isVerified
  {
    PublicUser(id, u.email, u.role, u.isVerified)
  }
}
