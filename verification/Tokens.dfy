/** Minting and checking of token pairs. Times are nanoseconds. */
module Tokens {
  import opened Domain

  const SECOND: int := 1_000_000_000
  const LEEWAY: int := 30 * SECOND
  const ZERO_TIME: int := 0

  /** Numeric dates in a token carry whole seconds. */
  function Truncate(time: int): int {
    time - time % SECOND
  }

  /** A numeric date is the last whole second, and checks allow for thirty of them. */
  lemma TruncateIsFloor(time: int)
    ensures Truncate(time) <= time < Truncate(time) + 1_000_000_000 && Truncate(time) % 1_000_000_000 == 0
    ensures LEEWAY == 30 * 1_000_000_000
  {
  }

  function Lifetime(ttl: Lifetimes, kind: TokenType): int {
    match kind
    case Access => ttl.access
    case Refresh => ttl.refresh
  }

  /** The session half of a minted pair. */
  function MintSession(
    user: User, roles: seq<string>, sessionId: string, createdAt: int,
    now: int, accessId: string, refreshId: string, ttl: Lifetimes): AuthSession
  {
    AuthSession(
      sessionId, user.id, user.email, roles, accessId, refreshId,
      if createdAt == ZERO_TIME then now else createdAt,
      now + ttl.refresh)
  }

  function TokenId(session: AuthSession, kind: TokenType): string {
    match kind
    case Access => session.accessId
    case Refresh => session.refreshId
  }

  /** The token of the given kind that is signed together with a session. */
  function MintToken(session: AuthSession, kind: TokenType, now: int, ttl: Lifetimes): Claims {
    Claims(
      kind, TokenId(session, kind), session.id, session.userId, session.email, session.roles,
      Truncate(now), Truncate(now + Lifetime(ttl, kind)))
  }

  /** What parsing demands of an issued token: required claims and its time window. */
  predicate Parses(token: Claims, now: int) {
    && now < token.expiresAt + LEEWAY
    && token.issuedAt - LEEWAY <= now
    && token.subject != ""
    && token.id != ""
    && token.email != ""
    && token.sessionId != ""
  }

  /** The comparison of a token with the session it names. */
  predicate Fits(token: Claims, session: AuthSession) {
    && session.userId == token.subject
    && session.email == token.email
    && session.roles == token.roles
    && TokenId(session, token.kind) == token.id
  }
}
