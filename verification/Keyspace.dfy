/** The part of the Redis keyspace that the session store uses: one cell per
    session and one index set per user, each with its own deadline. Every
    function below is the effect of one Redis command, or of one MULTI/EXEC block. */
module Keyspace {
  import opened Domain

  datatype Cell<+T> = Cell(value: T, deadline: int)

  datatype Store = Store(
    sessions: map<string, Cell<AuthSession>>,
    index: map<string, Cell<set<string>>>)

  /** A key expires once the clock is past its deadline. */
  predicate Live<T>(cell: Cell<T>, now: int) {
    now <= cell.deadline
  }

  /** validateSession */
  predicate Storable(session: AuthSession, ttl: int) {
    && session.id != "" && session.userId != ""
    && session.accessId != "" && session.refreshId != ""
    && ttl > 0
  }

  /** GET of a session key. */
  function Find(store: Store, now: int, id: string): Option<AuthSession> {
    if id in store.sessions && Live(store.sessions[id], now)
    then Some(store.sessions[id].value)
    else None
  }

  /** SMEMBERS of a user's index set. */
  function Members(store: Store, now: int, userId: string): set<string> {
    if userId in store.index && Live(store.index[userId], now)
    then store.index[userId].value
    else {}
  }

  /** MULTI; SET session ttl; SADD index id; EXPIRE index ttl; EXEC. */
  function Put(store: Store, now: int, session: AuthSession, ttl: int): Store {
    Store(
      store.sessions[session.id := Cell(session, now + ttl)],
      store.index[session.userId := Cell(Members(store, now, session.userId) + {session.id}, now + ttl)])
  }

  /** SREM of a member; a set that becomes empty disappears. */
  function Unlist(store: Store, now: int, userId: string, id: string): Store {
    var rest := Members(store, now, userId) - {id};
    if rest == Members(store, now, userId) then store
    else if rest == {} then store.(index := store.index - {userId})
    else store.(index := store.index[userId := Cell(rest, store.index[userId].deadline)])
  }

  /** MULTI; DEL session; SREM index id; EXEC. */
  function Drop(store: Store, now: int, key: string, session: AuthSession): Store {
    Unlist(store.(sessions := store.sessions - {key}), now, session.userId, session.id)
  }

  /** DEL of the listed session keys and of the user's index set. */
  function Erase(store: Store, userId: string, ids: set<string>): Store {
    Store(store.sessions - ids, store.index - {userId})
  }

  /** Drop takes one session key and one index member, and nothing else. */
  lemma DropEffect(store: Store, now: int, key: string, session: AuthSession)
    ensures Drop(store, now, key, session).sessions == store.sessions - {key}
    ensures forall u :: u in Drop(store, now, key, session).index ==>
              && u in store.index
              && Drop(store, now, key, session).index[u].deadline == store.index[u].deadline
              && store.index[u].value - {session.id} <= Drop(store, now, key, session).index[u].value <=
                 store.index[u].value
    ensures forall u :: u in store.index && store.index[u].value - {session.id} != {} ==>
              u in Drop(store, now, key, session).index
  {
  }
}
