/** The operations of the session store, each as one atomic step on the keyspace,
    and what they keep. */
module SessionStore {
  import opened Domain
  import opened Keyspace

  function Create(store: Store, now: int, session: AuthSession, ttl: int): (Store, Outcome<()>) {
    if !Storable(session, ttl) then (store, Err(InvalidInput))
    else (Put(store, now, session, ttl), Ok(()))
  }

  /** An expired session that Redis still holds is deleted on the way. */
  function Get(store: Store, now: int, id: string): (Store, Outcome<AuthSession>) {
    var found := Find(store, now, id);
    if id == "" then (store, Err(InvalidToken))
    else if found.None? then (store, Err(NotFound))
    else if now > found.value.expiresAt then (Delete(store, now, found.value.id), Err(InvalidToken))
    else (store, Ok(found.value))
  }

  function Delete(store: Store, now: int, id: string): Store {
    var found := Find(store, now, id);
    if id == "" || found.None? then store else Drop(store, now, id, found.value)
  }

  function DeleteAllForUser(store: Store, now: int, userId: string): (Store, Outcome<()>) {
    if userId == "" then (store, Err(InvalidInput))
    else (Erase(store, userId, Members(store, now, userId)), Ok(()))
  }

  /** What the GET of a rotation attempt decides. */
  function CheckRotation(found: Option<AuthSession>, refreshId: string, next: AuthSession): bool {
    found.Some? && found.value.refreshId == refreshId && found.value.userId == next.userId
  }

  function Rotate(
    store: Store, now: int, id: string, refreshId: string, next: AuthSession, ttl: int): (Store, Outcome<()>)
  {
    if id == "" || refreshId == "" then (store, Err(InvalidToken))
    else if !Storable(next, ttl) || next.id != id then (store, Err(InvalidInput))
    else if !CheckRotation(Find(store, now, id), refreshId, next) then (store, Err(InvalidToken))
    else (Put(store, now, next, ttl), Ok(()))
  }

  /** Creation and rotation when Redis may not answer, which has no effect. */
  function CreateUnder(store: Store, now: int, session: AuthSession, ttl: int, up: bool): (Store, Outcome<()>) {
    if up then Create(store, now, session, ttl)
    else (store, Err(if Storable(session, ttl) then Internal else InvalidInput))
  }

  function RotateUnder(
    store: Store, now: int, id: string, refreshId: string, next: AuthSession, ttl: int, up: bool): (Store, Outcome<()>)
  {
    if up || id == "" || refreshId == "" || !Storable(next, ttl) || next.id != id
    then Rotate(store, now, id, refreshId, next, ttl)
    else (store, Err(Internal))
  }

  // ---- the index invariant ----

  /** Every unexpired session is in the index set of its user, which outlives it, and
      every unexpired member of an index set belongs to that user. */
  ghost predicate Indexed(store: Store, now: int, ttl: int) {
    && (forall id :: id in store.sessions ==>
        store.sessions[id].value.id == id && store.sessions[id].deadline <= now + ttl)
    && (forall id :: id in store.sessions && Live(store.sessions[id], now) ==> Listed(store, id))
    && (forall u, id :: u in store.index && id in store.index[u].value && Find(store, now, id).Some? ==>
        store.sessions[id].value.userId == u)
  }

  predicate Listed(store: Store, id: string)
    requires id in store.sessions
  {
    var u := store.sessions[id].value.userId;
    u in store.index && id in store.index[u].value && store.sessions[id].deadline <= store.index[u].deadline
  }

  /** The id is new: no session has it and no index set mentions it. */
  predicate Unused(store: Store, id: string) {
    && id !in store.sessions
    && (forall u :: u in store.index ==> id !in store.index[u].value)
  }

  lemma TimeKeepsIndex(store: Store, now: int, later: int, ttl: int)
    requires Indexed(store, now, ttl) && now <= later
    ensures Indexed(store, later, ttl)
  {
    forall u, id | u in store.index && id in store.index[u].value && Find(store, later, id).Some?
      ensures store.sessions[id].value.userId == u
    {
      assert Find(store, now, id).Some?;
    }
  }

  lemma PutElsewhere(store: Store, now: int, session: AuthSession, ttl: int, u: string)
    requires u != session.userId && u in Put(store, now, session, ttl).index
    ensures u in store.index && Put(store, now, session, ttl).index[u] == store.index[u]
  {
  }

  /** A session may be put under an unused id, or over a live session of the same user. */
  lemma PutKeepsIndex(store: Store, now: int, session: AuthSession, ttl: int)
    requires Indexed(store, now, ttl)
    requires Unused(store, session.id) ||
             (Find(store, now, session.id).Some? && store.sessions[session.id].value.userId == session.userId)
    ensures Indexed(Put(store, now, session, ttl), now, ttl)
  {
    var after := Put(store, now, session, ttl);
    forall id | id in after.sessions && Live(after.sessions[id], now) ensures Listed(after, id) {
      if id != session.id {
        assert Listed(store, id);
      }
    }
    forall u, id | u in after.index && id in after.index[u].value && Find(after, now, id).Some?
      ensures after.sessions[id].value.userId == u
    {
      if id != session.id {
        assert u in store.index && id in store.index[u].value && Find(store, now, id).Some?;
      } else if u != session.userId {
        PutElsewhere(store, now, session, ttl, u);
      }
    }
  }

  lemma DropKeepsIndex(store: Store, now: int, id: string, ttl: int)
    requires Indexed(store, now, ttl)
    requires Find(store, now, id).Some?
    ensures Indexed(Drop(store, now, id, Find(store, now, id).value), now, ttl)
  {
    var session := Find(store, now, id).value;
    var after := Drop(store, now, id, session);
    DropEffect(store, now, id, session);
    forall i | i in after.sessions && Live(after.sessions[i], now) ensures Listed(after, i) {
      assert Listed(store, i);
      assert i in store.index[store.sessions[i].value.userId].value - {session.id};
    }
    forall u, i | u in after.index && i in after.index[u].value && Find(after, now, i).Some?
      ensures after.sessions[i].value.userId == u
    {
      assert i in store.index[u].value && Find(store, now, i).Some?;
    }
  }

  /** DeleteAllForUser finds exactly the user's sessions through the index. */
  lemma DeleteAllIsExact(store: Store, now: int, userId: string, ttl: int)
    requires Indexed(store, now, ttl) && userId != ""
    ensures Indexed(DeleteAllForUser(store, now, userId).0, now, ttl)
    ensures DeleteAllForUser(store, now, userId).1 == Ok(())
    ensures forall u :: Members(DeleteAllForUser(store, now, userId).0, now, u) ==
              (if u == userId then {} else Members(store, now, u))
    ensures forall id :: Find(DeleteAllForUser(store, now, userId).0, now, id) ==
              (if Find(store, now, id).Some? && Find(store, now, id).value.userId == userId then None
               else Find(store, now, id))
  {
    var after := DeleteAllForUser(store, now, userId).0;
    forall id | Find(store, now, id).Some?
      ensures id in Members(store, now, userId) <==> Find(store, now, id).value.userId == userId
    {
      assert Listed(store, id);
    }
    forall u, id | u in after.index && id in after.index[u].value && Find(after, now, id).Some?
      ensures after.sessions[id].value.userId == u
    {
      assert Find(store, now, id).Some?;
    }
  }

  // ---- what each operation does to sessions and index sets ----

  /** A session can be stored when all its four ids are there and it has time to live. */
  lemma CreateIsExact(store: Store, now: int, session: AuthSession, ttl: int)
    ensures var (after, result) := Create(store, now, session, ttl);
      if session.id == "" || session.userId == "" || session.accessId == "" || session.refreshId == "" || ttl <= 0
      then after == store && result == Err(InvalidInput)
      else result == Ok(()) && StoredExactly(store, after, now, session, ttl)
  {
  }

  /** The session is shown and listed from now for `ttl`, and nothing else has changed. */
  ghost predicate StoredExactly(store: Store, after: Store, now: int, session: AuthSession, ttl: int) {
    && (forall id, time :: now <= time ==>
          Find(after, time, id) ==
          if id != session.id then Find(store, time, id) else if time <= now + ttl then Some(session) else None)
    && (forall u, time :: now <= time ==>
          Members(after, time, u) ==
          if u != session.userId then Members(store, time, u)
          else if time <= now + ttl then Members(store, now, u) + {session.id} else {})
  }

  /** A rotation stores the next session exactly when the key still shows the presented
      refresh id and the next session's user; it never stores under another id. */
  lemma RotateIsExact(store: Store, now: int, id: string, refreshId: string, next: AuthSession, ttl: int)
    ensures var (after, result) := Rotate(store, now, id, refreshId, next, ttl);
      if id == "" || refreshId == "" then after == store && result == Err(InvalidToken)
      else if next.id != id || next.userId == "" || next.accessId == "" || next.refreshId == "" || ttl <= 0
      then after == store && result == Err(InvalidInput)
      else if id !in store.sessions || now > store.sessions[id].deadline
              || store.sessions[id].value.refreshId != refreshId || store.sessions[id].value.userId != next.userId
      then after == store && result == Err(InvalidToken)
      else result == Ok(()) && StoredExactly(store, after, now, next, ttl)
  {
  }

  /** The session is not shown and its id not listed any more, and nothing else has changed. */
  ghost predicate RemovedExactly(store: Store, after: Store, now: int, session: AuthSession) {
    && (forall id, time :: now <= time ==>
          Find(after, time, id) ==
          if id == session.id then None else Find(store, time, id))
    && (forall u, time :: now <= time ==>
          Members(after, time, u) ==
          if u == session.userId then Members(store, time, u) - {session.id} else Members(store, time, u))
  }

  lemma DeleteIsExact(store: Store, now: int, id: string, ttl: int)
    requires Indexed(store, now, ttl)
    ensures var after := Delete(store, now, id);
      match Find(store, now, id)
      case Some(session) => id != "" ==> RemovedExactly(store, after, now, session)
      case None => after == store
  {
    var found := Find(store, now, id);
    if id != "" && found.Some? {
      DropIsExact(store, now, found.value);
    }
  }

  lemma DropIsExact(store: Store, now: int, session: AuthSession)
    ensures RemovedExactly(store, Drop(store, now, session.id, session), now, session)
  {
    hide Drop;
    DropEffect(store, now, session.id, session);
    forall u, time | now <= time
      ensures Members(Drop(store, now, session.id, session), time, u) ==
              if u == session.userId then Members(store, time, u) - {session.id} else Members(store, time, u)
    {
      DropMembers(store, now, session, u, time);
    }
  }

  lemma DropMembers(store: Store, now: int, session: AuthSession, u: string, time: int)
    requires now <= time
    ensures Members(Drop(store, now, session.id, session), time, u) ==
            if u == session.userId then Members(store, time, u) - {session.id} else Members(store, time, u)
  {
  }

  /** What a lookup answers, and that a session past its expiry is deleted on the way. */
  lemma GetIsExact(store: Store, now: int, id: string, ttl: int)
    requires Indexed(store, now, ttl)
    ensures var (after, result) := Get(store, now, id);
      if id == "" then after == store && result == Err(InvalidToken)
      else if id !in store.sessions || now > store.sessions[id].deadline then after == store && result == Err(NotFound)
      else if now > store.sessions[id].value.expiresAt
      then result == Err(InvalidToken) && RemovedExactly(store, after, now, store.sessions[id].value)
      else after == store && result == Ok(store.sessions[id].value)
  {
    DeleteIsExact(store, now, id, ttl);
  }

  // ---- every operation keeps the index ----

  lemma OperationsKeepIndex(
    store: Store, now: int, ttl: int, session: AuthSession, id: string, refreshId: string, userId: string)
    requires Indexed(store, now, ttl)
    ensures Unused(store, session.id) ==> Indexed(Create(store, now, session, ttl).0, now, ttl)
    ensures Indexed(Get(store, now, id).0, now, ttl)
    ensures Indexed(Delete(store, now, id), now, ttl)
    ensures Indexed(DeleteAllForUser(store, now, userId).0, now, ttl)
    ensures Indexed(Rotate(store, now, id, refreshId, session, ttl).0, now, ttl)
  {
    hide Indexed, Put, Drop, Unused;
    if Unused(store, session.id) {
      PutKeepsIndex(store, now, session, ttl);
    }
    if Find(store, now, id).Some? {
      DropKeepsIndex(store, now, id, ttl);
      assert Find(store, now, id).value.id == id by { KeyIsId(store, now, ttl, id); }
    }
    if userId != "" {
      DeleteAllIsExact(store, now, userId, ttl);
    }
    if session.id == id && CheckRotation(Find(store, now, id), refreshId, session) {
      PutKeepsIndex(store, now, session, ttl);
    }
  }

  lemma KeyIsId(store: Store, now: int, ttl: int, id: string)
    requires Indexed(store, now, ttl) && id in store.sessions
    ensures store.sessions[id].value.id == id
  {
  }
}
