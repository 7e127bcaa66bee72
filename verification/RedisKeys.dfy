/** The keyspace as Redis has it: one map from text keys to values with a deadline.
    The key layout splits it into session cells and index sets that never meet. */
module RedisKeys {
  import opened Domain
  import opened Keyspace

  datatype Value = Payload(session: AuthSession) | Ids(ids: set<string>) | Foreign(text: string)

  datatype Entry = Entry(value: Value, deadline: Option<int>)

  type Db = map<string, Entry>

  function SessionPrefix(): string {
    "auth:session:"
  }

  function IndexPrefix(): string {
    "auth:user-sessions:"
  }

  function SessionKey(id: string): string {
    SessionPrefix() + id
  }

  function IndexKey(userId: string): string {
    IndexPrefix() + userId
  }

  predicate HasPrefix(key: string, prefix: string) {
    |prefix| <= |key| && key[..|prefix|] == prefix
  }

  /** The two families of keys are disjoint and each id has its own key. */
  lemma KeyLayout(a: string, b: string)
    ensures SessionKey(a) == "auth:session:" + a && IndexKey(b) == "auth:user-sessions:" + b
    ensures SessionKey(a) != IndexKey(b)
    ensures SessionKey(a) == SessionKey(b) ==> a == b
    ensures IndexKey(a) == IndexKey(b) ==> a == b
  {
    assert SessionKey(a)[5] == 's' && IndexKey(b)[5] == 'u';
    assert SessionKey(a)[|SessionPrefix()|..] == a && SessionKey(b)[|SessionPrefix()|..] == b;
    assert IndexKey(a)[|IndexPrefix()|..] == a && IndexKey(b)[|IndexPrefix()|..] == b;
  }

  // ---- commands ----

  predicate Alive(db: Db, now: int, key: string) {
    key in db && (db[key].deadline.Some? ==> now <= db[key].deadline.value)
  }

  function GetCommand(db: Db, now: int, key: string): Option<AuthSession> {
    if Alive(db, now, key) && db[key].value.Payload? then Some(db[key].value.session) else None
  }

  function SetCommand(db: Db, now: int, key: string, session: AuthSession, ttl: int): Db {
    db[key := Entry(Payload(session), Some(now + ttl))]
  }

  function SMembersCommand(db: Db, now: int, key: string): set<string> {
    if Alive(db, now, key) && db[key].value.Ids? then db[key].value.ids else {}
  }

  /** A set that is created by SADD has no deadline of its own. */
  function SAddCommand(db: Db, now: int, key: string, id: string): Db {
    db[key := Entry(Ids(SMembersCommand(db, now, key) + {id}), if Alive(db, now, key) then db[key].deadline else None)]
  }

  function ExpireCommand(db: Db, now: int, key: string, ttl: int): Db {
    if Alive(db, now, key) then db[key := db[key].(deadline := Some(now + ttl))] else db
  }

  function DelCommand(db: Db, keys: seq<string>): Db {
    map k | k in db && k !in keys :: db[k]
  }

  function SRemCommand(db: Db, now: int, key: string, id: string): Db {
    var members := SMembersCommand(db, now, key);
    if id !in members then db
    else if members == {id} then map k | k in db && k != key :: db[k]
    else db[key := db[key].(value := Ids(members - {id}))]
  }

  // ---- the structured view ----

  /** Session keys hold sessions, index keys hold sets, and both have a deadline. */
  predicate Typed(db: Db) {
    && (forall k :: k in db && HasPrefix(k, SessionPrefix()) ==> db[k].value.Payload? && db[k].deadline.Some?)
    && (forall k :: k in db && HasPrefix(k, IndexPrefix()) ==> db[k].value.Ids? && db[k].deadline.Some?)
  }

  function Suffixes(db: Db, prefix: string): (ids: set<string>)
    ensures forall id :: id in ids <==> prefix + id in db
  {
    var ids := set k | k in db && HasPrefix(k, prefix) :: k[|prefix|..];
    assert forall id :: id in ids <==> prefix + id in db by {
      forall id ensures id in ids <==> prefix + id in db {
        SuffixOfKey(db, prefix, id);
      }
    }
    ids
  }

  lemma SuffixOfKey(db: Db, prefix: string, id: string)
    ensures id in (set k | k in db && HasPrefix(k, prefix) :: k[|prefix|..]) <==> prefix + id in db
  {
    assert (prefix + id)[..|prefix|] == prefix && (prefix + id)[|prefix|..] == id;
    forall k | k in db && HasPrefix(k, prefix) && k[|prefix|..] == id ensures prefix + id in db {
      assert k == k[..|prefix|] + k[|prefix|..];
    }
  }

  lemma KeyPrefixes(id: string)
    ensures HasPrefix(SessionKey(id), SessionPrefix()) && HasPrefix(IndexKey(id), IndexPrefix())
  {
    assert SessionKey(id)[..|SessionPrefix()|] == SessionPrefix();
    assert IndexKey(id)[..|IndexPrefix()|] == IndexPrefix();
  }

  predicate SessionEntry(entry: Entry, cell: Cell<AuthSession>) {
    entry == Entry(Payload(cell.value), Some(cell.deadline))
  }

  predicate IndexEntry(entry: Entry, cell: Cell<set<string>>) {
    entry == Entry(Ids(cell.value), Some(cell.deadline))
  }

  ghost predicate SessionsView(db: Db, cells: map<string, Cell<AuthSession>>) {
    && (forall id :: id in cells <==> SessionKey(id) in db)
    && (forall id :: id in cells ==> SessionEntry(db[SessionKey(id)], cells[id]))
  }

  ghost predicate IndexView(db: Db, cells: map<string, Cell<set<string>>>) {
    && (forall u :: u in cells <==> IndexKey(u) in db)
    && (forall u :: u in cells ==> IndexEntry(db[IndexKey(u)], cells[u]))
  }

  ghost predicate IsView(db: Db, store: Store) {
    SessionsView(db, store.sessions) && IndexView(db, store.index)
  }

  /** The session cells and index sets of the keyspace. */
  ghost function Load(db: Db): (store: Store)
    requires Typed(db)
    ensures IsView(db, store)
  {
    var ids, users := Suffixes(db, SessionPrefix()), Suffixes(db, IndexPrefix());
    assert forall id :: id in ids ==> db[SessionKey(id)].value.Payload? && db[SessionKey(id)].deadline.Some? by {
      forall id { KeyPrefixes(id); }
    }
    assert forall u :: u in users ==> db[IndexKey(u)].value.Ids? && db[IndexKey(u)].deadline.Some? by {
      forall u { KeyPrefixes(u); }
    }
    Store(
      map id | id in ids :: Cell(db[SessionKey(id)].value.session, db[SessionKey(id)].deadline.value),
      map u | u in users :: Cell(db[IndexKey(u)].value.ids, db[IndexKey(u)].deadline.value))
  }

  lemma ViewIsUnique(db: Db, a: Store, b: Store)
    requires IsView(db, a) && IsView(db, b)
    ensures a == b
  {
    hide SessionPrefix, IndexPrefix, SessionKey, IndexKey;
    assert a.sessions == b.sessions;
    assert a.index == b.index;
  }
}
