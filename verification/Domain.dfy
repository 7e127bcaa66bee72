/** The entities and error values that the service, the session store and the
    user repository exchange. */
module Domain {

  datatype Option<+T> = None | Some(value: T)

  /** The sentinel errors; `Internal` stands for every wrapped infrastructure error. */
  datatype Error =
    | NotFound
    | AlreadyExists
    | InvalidPassword
    | InvalidToken
    | InvalidInput
    | Unauthorized
    | Forbidden
    | Internal

  datatype Outcome<+T> = Ok(value: T) | Err(error: Error)

  datatype TokenType = Access | Refresh

  datatype Role = Role(id: string, name: string)

  datatype Status = Active | Suspended | Deleted

  datatype User = User(
    id: string,
    email: string,
    password: PasswordHash,
    firstName: string,
    lastName: string,
    phone: string,
    status: Status,
    roles: seq<Role>)

  /** The ideal password hash: it matches the password it was made from and no other. */
  datatype PasswordHash = PasswordHash(password: string)

  /** One authenticated login: it holds the ids of its one current access token
      and its one current refresh token. */
  datatype AuthSession = AuthSession(
    id: string,
    userId: string,
    email: string,
    roles: seq<string>,
    accessId: string,
    refreshId: string,
    createdAt: int,
    expiresAt: int)

  /** The claims of a signed token. Signing is ideal, so a token is its claims. */
  datatype Claims = Claims(
    kind: TokenType,
    id: string,
    sessionId: string,
    subject: string,
    email: string,
    roles: seq<string>,
    issuedAt: int,
    expiresAt: int)

  /** The two lifetimes of the configuration, in nanoseconds. */
  datatype Lifetimes = Lifetimes(access: int, refresh: int) {
    predicate Valid() {
      0 < access < refresh
    }
  }
}
