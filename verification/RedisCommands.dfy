/** On the structured view, each transaction of text-keyed commands is the step that
    the session store makes. */
module RedisCommands {
  import opened Domain
  import opened Keyspace
  import opened RedisKeys

  /** One session key among all keys. */
  lemma SessionKeyIsOwn(id: string)
    ensures HasPrefix(SessionKey(id), SessionPrefix()) && !HasPrefix(SessionKey(id), IndexPrefix())
    ensures forall a :: a != id ==> SessionKey(a) != SessionKey(id)
    ensures forall u :: IndexKey(u) != SessionKey(id)
  {
    KeyPrefixes(id);
    assert SessionKey(id)[5] == 's' && IndexPrefix()[5] == 'u';
    forall a
      ensures a != id ==> SessionKey(a) != SessionKey(id)
      ensures IndexKey(a) != SessionKey(id)
    {
      KeyLayout(a, id);
      KeyLayout(id, a);
    }
  }

  /** One index key among all keys. */
  lemma IndexKeyIsOwn(u: string)
    ensures HasPrefix(IndexKey(u), IndexPrefix()) && !HasPrefix(IndexKey(u), SessionPrefix())
    ensures forall a :: a != u ==> IndexKey(a) != IndexKey(u)
    ensures forall id :: SessionKey(id) != IndexKey(u)
  {
    KeyPrefixes(u);
    assert IndexKey(u)[5] == 'u' && SessionPrefix()[5] == 's';
    forall a
      ensures a != u ==> IndexKey(a) != IndexKey(u)
      ensures SessionKey(a) != IndexKey(u)
    {
      KeyLayout(a, u);
      KeyLayout(u, a);
    }
  }

  lemma LoadFind(db: Db, now: int, id: string)
    requires Typed(db)
    ensures GetCommand(db, now, SessionKey(id)) == Find(Load(db), now, id)
  {
    hide SessionPrefix, IndexPrefix, SessionKey, IndexKey, HasPrefix, Load, IndexView;
    assert SessionsView(db, Load(db).sessions);
  }

  lemma ViewMembers(db: Db, store: Store, now: int, u: string)
    requires IndexView(db, store.index)
    ensures SMembersCommand(db, now, IndexKey(u)) == Members(store, now, u)
  {
    hide SessionPrefix, IndexPrefix, SessionKey, IndexKey, HasPrefix;
  }

  // ---- one write or deletion at a time ----

  lemma SessionWritten(db: Db, cells: map<string, Cell<AuthSession>>, id: string, cell: Cell<AuthSession>)
    requires SessionsView(db, cells)
    requires forall a :: a != id ==> SessionKey(a) != SessionKey(id)
    ensures SessionsView(db[SessionKey(id) := Entry(Payload(cell.value), Some(cell.deadline))], cells[id := cell])
  {
    hide SessionPrefix, IndexPrefix, SessionKey, IndexKey, HasPrefix;
  }

  lemma IndexWritten(db: Db, cells: map<string, Cell<set<string>>>, u: string, cell: Cell<set<string>>)
    requires IndexView(db, cells)
    requires forall a :: a != u ==> IndexKey(a) != IndexKey(u)
    ensures IndexView(db[IndexKey(u) := Entry(Ids(cell.value), Some(cell.deadline))], cells[u := cell])
  {
    hide SessionPrefix, IndexPrefix, SessionKey, IndexKey, HasPrefix;
  }

  lemma SessionsElsewhere(db: Db, cells: map<string, Cell<AuthSession>>, key: string, entry: Entry)
    requires SessionsView(db, cells)
    requires forall id :: SessionKey(id) != key
    ensures SessionsView(db[key := entry], cells)
  {
    hide SessionPrefix, IndexPrefix, SessionKey, IndexKey, HasPrefix;
  }

  lemma IndexElsewhere(db: Db, cells: map<string, Cell<set<string>>>, key: string, entry: Entry)
    requires IndexView(db, cells)
    requires forall u :: IndexKey(u) != key
    ensures IndexView(db[key := entry], cells)
  {
    hide SessionPrefix, IndexPrefix, SessionKey, IndexKey, HasPrefix;
  }

  lemma WriteSession(db: Db, store: Store, id: string, cell: Cell<AuthSession>)
    requires Typed(db) && IsView(db, store)
    ensures var after := db[SessionKey(id) := Entry(Payload(cell.value), Some(cell.deadline))];
      Typed(after) && IsView(after, store.(sessions := store.sessions[id := cell]))
  {
    hide SessionPrefix, IndexPrefix, SessionKey, IndexKey, HasPrefix, SessionsView, IndexView;
    SessionKeyIsOwn(id);
    SessionWritten(db, store.sessions, id, cell);
    IndexElsewhere(db, store.index, SessionKey(id), Entry(Payload(cell.value), Some(cell.deadline)));
  }

  lemma WriteIndex(db: Db, store: Store, u: string, cell: Cell<set<string>>)
    requires Typed(db) && IsView(db, store)
    ensures var after := db[IndexKey(u) := Entry(Ids(cell.value), Some(cell.deadline))];
      Typed(after) && IsView(after, store.(index := store.index[u := cell]))
  {
    hide SessionPrefix, IndexPrefix, SessionKey, IndexKey, HasPrefix, SessionsView, IndexView;
    IndexKeyIsOwn(u);
    IndexWritten(db, store.index, u, cell);
    SessionsElsewhere(db, store.sessions, IndexKey(u), Entry(Ids(cell.value), Some(cell.deadline)));
  }

  predicate Shrunk(db: Db, after: Db) {
    forall k :: k in after ==> k in db && after[k] == db[k]
  }

  lemma SessionsDeleted(db: Db, cells: map<string, Cell<AuthSession>>, after: Db, ids: set<string>)
    requires SessionsView(db, cells) && Shrunk(db, after)
    requires forall id :: SessionKey(id) in db ==> (SessionKey(id) in after <==> id !in ids)
    ensures SessionsView(after, cells - ids)
  {
    hide SessionPrefix, IndexPrefix, SessionKey, IndexKey, HasPrefix;
  }

  lemma IndexDeleted(db: Db, cells: map<string, Cell<set<string>>>, after: Db, users: set<string>)
    requires IndexView(db, cells) && Shrunk(db, after)
    requires forall u :: IndexKey(u) in db ==> (IndexKey(u) in after <==> u !in users)
    ensures IndexView(after, cells - users)
  {
    hide SessionPrefix, IndexPrefix, SessionKey, IndexKey, HasPrefix;
  }

  lemma DeleteKeys(db: Db, store: Store, after: Db, ids: set<string>, users: set<string>)
    requires Typed(db) && IsView(db, store) && Shrunk(db, after)
    requires forall id :: SessionKey(id) in db ==> (SessionKey(id) in after <==> id !in ids)
    requires forall u :: IndexKey(u) in db ==> (IndexKey(u) in after <==> u !in users)
    ensures Typed(after)
    ensures IsView(after, Store(store.sessions - ids, store.index - users))
  {
    hide SessionPrefix, IndexPrefix, SessionKey, IndexKey, HasPrefix, SessionsView, IndexView;
    SessionsDeleted(db, store.sessions, after, ids);
    IndexDeleted(db, store.index, after, users);
  }

  // ---- the transactions ----

  /** MULTI; SET; SADD; EXPIRE; EXEC */
  function PutCommands(db: Db, now: int, key: string, session: AuthSession, ttl: int): Db {
    var stored := SetCommand(db, now, key, session, ttl);
    var listed := SAddCommand(stored, now, IndexKey(session.userId), session.id);
    ExpireCommand(listed, now, IndexKey(session.userId), ttl)
  }

  lemma PutForm(db: Db, now: int, key: string, session: AuthSession, ttl: int)
    requires key != IndexKey(session.userId)
    ensures PutCommands(db, now, key, session, ttl) ==
            db[key := Entry(Payload(session), Some(now + ttl))]
              [IndexKey(session.userId) :=
                Entry(Ids(SMembersCommand(db, now, IndexKey(session.userId)) + {session.id}), Some(now + ttl))]
  {
    hide SessionPrefix, IndexPrefix, IndexKey;
  }

  lemma LoadPut(db: Db, now: int, session: AuthSession, ttl: int)
    requires Typed(db)
    ensures Typed(PutCommands(db, now, SessionKey(session.id), session, ttl))
    ensures Load(PutCommands(db, now, SessionKey(session.id), session, ttl)) == Put(Load(db), now, session, ttl)
  {
    hide SessionPrefix, IndexPrefix, SessionKey, IndexKey, Typed, SessionsView, IndexView, Load, PutCommands;
    KeyLayout(session.id, session.userId);
    PutForm(db, now, SessionKey(session.id), session, ttl);
    var store := Load(db);
    ViewMembers(db, store, now, session.userId);
    var cell := Cell(session, now + ttl);
    WriteSession(db, store, session.id, cell);
    WriteIndex(
      db[SessionKey(session.id) := Entry(Payload(session), Some(now + ttl))],
      store.(sessions := store.sessions[session.id := cell]), session.userId,
      Cell(Members(store, now, session.userId) + {session.id}, now + ttl));
    var after := PutCommands(db, now, SessionKey(session.id), session, ttl);
    ViewIsUnique(after, Load(after), Put(store, now, session, ttl));
  }

  /** MULTI; DEL; SREM; EXEC */
  function DropCommands(db: Db, now: int, key: string, session: AuthSession): Db {
    SRemCommand(DelCommand(db, [key]), now, IndexKey(session.userId), session.id)
  }

  lemma Unlists(db: Db, store: Store, now: int, userId: string, id: string)
    requires Typed(db) && IsView(db, store)
    ensures Typed(SRemCommand(db, now, IndexKey(userId), id))
    ensures IsView(SRemCommand(db, now, IndexKey(userId), id), Unlist(store, now, userId, id))
  {
    hide SessionPrefix, IndexPrefix, SessionKey, IndexKey, HasPrefix, Typed, SessionsView, IndexView;
    ViewMembers(db, store, now, userId);
    var members := SMembersCommand(db, now, IndexKey(userId));
    var after := SRemCommand(db, now, IndexKey(userId), id);
    if id in members {
      if members == {id} {
        IndexKeyIsOwn(userId);
        DeleteKeys(db, store, after, {}, {userId});
        assert store.sessions - {} == store.sessions;
      } else {
        assert members == (members - {id}) + {id};
        ViewDeadline(db, store, userId);
        WriteIndex(db, store, userId, Cell(members - {id}, store.index[userId].deadline));
      }
    } else {
      assert members - {id} == members;
    }
  }

  lemma ViewDeadline(db: Db, store: Store, u: string)
    requires IndexView(db, store.index) && u in store.index
    ensures IndexKey(u) in db && db[IndexKey(u)].deadline == Some(store.index[u].deadline)
  {
    hide SessionPrefix, IndexPrefix, SessionKey, IndexKey, HasPrefix;
  }

  lemma LoadDrop(db: Db, now: int, id: string, session: AuthSession)
    requires Typed(db)
    ensures Typed(DropCommands(db, now, SessionKey(id), session))
    ensures Load(DropCommands(db, now, SessionKey(id), session)) == Drop(Load(db), now, id, session)
  {
    hide SessionPrefix, IndexPrefix, SessionKey, IndexKey, HasPrefix, Load, Typed, SessionsView, IndexView, Unlist,
      SRemCommand;
    SessionKeyIsOwn(id);
    var store := Load(db);
    var deleted := DelCommand(db, [SessionKey(id)]);
    DeleteKeys(db, store, deleted, {id}, {});
    assert store.index - {} == store.index;
    Unlists(deleted, store.(sessions := store.sessions - {id}), now, session.userId, session.id);
    var after := DropCommands(db, now, SessionKey(id), session);
    ViewIsUnique(after, Load(after), Drop(store, now, id, session));
  }

  function SessionKeys(ids: seq<string>): seq<string> {
    seq(|ids|, i requires 0 <= i < |ids| => SessionKey(ids[i]))
  }

  lemma ListedKeys(ids: seq<string>, userId: string)
    ensures forall id :: SessionKey(id) in SessionKeys(ids) + [IndexKey(userId)] <==> id in ids
    ensures forall u :: IndexKey(u) in SessionKeys(ids) + [IndexKey(userId)] <==> u == userId
  {
    hide SessionPrefix, IndexPrefix, SessionKey, IndexKey, HasPrefix;
    IndexKeyIsOwn(userId);
    var keys := SessionKeys(ids) + [IndexKey(userId)];
    assert keys[|ids|] == IndexKey(userId);
    forall u ensures IndexKey(u) in keys <==> u == userId {
      IndexKeyIsOwn(u);
    }
    forall id ensures SessionKey(id) in keys <==> id in ids {
      SessionKeyIsOwn(id);
      if id in ids {
        var i :| 0 <= i < |ids| && ids[i] == id;
        assert keys[i] == SessionKey(id);
      }
    }
  }

  lemma LoadErase(db: Db, userId: string, ids: seq<string>, gone: set<string>)
    requires Typed(db) && forall id :: id in gone <==> id in ids
    ensures Typed(DelCommand(db, SessionKeys(ids) + [IndexKey(userId)]))
    ensures Load(DelCommand(db, SessionKeys(ids) + [IndexKey(userId)])) == Erase(Load(db), userId, gone)
  {
    hide SessionPrefix, IndexPrefix, SessionKey, IndexKey, HasPrefix, Load, Typed, SessionsView, IndexView, SessionKeys;
    ListedKeys(ids, userId);
    var after := DelCommand(db, SessionKeys(ids) + [IndexKey(userId)]);
    DeleteKeys(db, Load(db), after, gone, {userId});
    ViewIsUnique(after, Load(after), Erase(Load(db), userId, gone));
  }
}
