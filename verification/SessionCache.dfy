/** The Redis session store: text keys, commands in sequence, and the retry loop of
    a rotation. Each method is the step of the session store on the keyspace's view. */
module SessionCache {
  import opened Domain
  import opened Keyspace
  import opened RedisKeys
  import opened RedisCommands
  import SessionStore

  const MAXIMUM_ROTATION_ATTEMPTS: nat := 3

  /** What happens to one attempt of a rotation: nothing; rivals leave this keyspace behind
      between the WATCH and the EXEC and have changed the watched key, so that EXEC is
      refused; or the GET or the EXEC fails without effect. */
  datatype Interference = Calm | Rival(db: Db) | GetFails | ExecFails

  type Rivals = seq<Interference>

  function RivalAt(rivals: Rivals, attempt: nat): Interference {
    if attempt < |rivals| then rivals[attempt] else Calm
  }

  predicate RivalsTyped(rivals: Rivals) {
    forall i :: 0 <= i < |rivals| && rivals[i].Rival? ==> Typed(rivals[i].db)
  }

  /** The rotation loop on the structured view, from one attempt on. */
  ghost function Race(
    store: Store, now: int, id: string, refreshId: string, next: AuthSession, ttl: int,
    rivals: Rivals, attempt: nat): (Store, Outcome<()>)
    requires RivalsTyped(rivals)
    decreases MAXIMUM_ROTATION_ATTEMPTS - attempt
  {
    if attempt >= MAXIMUM_ROTATION_ATTEMPTS || RivalAt(rivals, attempt).GetFails? then (store, Err(Internal))
    else if !SessionStore.CheckRotation(Find(store, now, id), refreshId, next) then (store, Err(InvalidToken))
    else
      match RivalAt(rivals, attempt)
      case Rival(db) => Race(Load(db), now, id, refreshId, next, ttl, rivals, attempt + 1)
      case ExecFails => (store, Err(Internal))
      case _ => (Put(store, now, next, ttl), Ok(()))
  }

  /** One unrolling of the loop. */
  lemma RaceStep(
    store: Store, now: int, id: string, refreshId: string, next: AuthSession, ttl: int, rivals: Rivals, attempt: nat)
    requires RivalsTyped(rivals) && attempt < MAXIMUM_ROTATION_ATTEMPTS
    ensures Race(store, now, id, refreshId, next, ttl, rivals, attempt) ==
      if RivalAt(rivals, attempt).GetFails? then (store, Err(Internal))
      else if !SessionStore.CheckRotation(Find(store, now, id), refreshId, next) then (store, Err(InvalidToken))
      else if RivalAt(rivals, attempt).Rival? then
        Race(Load(RivalAt(rivals, attempt).db), now, id, refreshId, next, ttl, rivals, attempt + 1)
      else if RivalAt(rivals, attempt).ExecFails? then (store, Err(Internal))
      else (Put(store, now, next, ttl), Ok(()))
  {
  }

  ghost function RotateRaced(
    store: Store, now: int, id: string, refreshId: string, next: AuthSession, ttl: int,
    rivals: Rivals): (Store, Outcome<()>)
    requires RivalsTyped(rivals)
  {
    if id == "" || refreshId == "" then (store, Err(InvalidToken))
    else if !Storable(next, ttl) || next.id != id then (store, Err(InvalidInput))
    else Race(store, now, id, refreshId, next, ttl, rivals, 0)
  }

  /** `up` says whether Redis answers; when it does not, the command has no effect. */
  class SessionCache {
    var db: Db

    constructor ()
      ensures db == map[]
    {
      db := map[];
    }

    method Create(now: int, session: AuthSession, ttl: int, up: bool) returns (result: Outcome<()>)
      requires Typed(db)
      modifies this
      ensures Typed(db)
      ensures (Load(db), result) == SessionStore.CreateUnder(Load(old(db)), now, session, ttl, up)
    {
      hide SessionPrefix, IndexPrefix, SessionKey, IndexKey, Load, Typed;
      if !Storable(session, ttl) {
        return Err(InvalidInput);
      }
      if !up {
        return Err(Internal);
      }
      LoadPut(db, now, session, ttl);
      db := SetCommand(db, now, SessionKey(session.id), session, ttl);
      db := SAddCommand(db, now, IndexKey(session.userId), session.id);
      db := ExpireCommand(db, now, IndexKey(session.userId), ttl);
      return Ok(());
    }

    /** `deleteUp` says whether Redis answers to the deletion of an expired session; its
        failure is ignored. */
    method Get(now: int, id: string, up: bool, deleteUp: bool) returns (result: Outcome<AuthSession>)
      requires Typed(db)
      modifies this
      ensures Typed(db)
      ensures up ==> result == SessionStore.Get(Load(old(db)), now, id).1
      ensures !up ==> result == Err(if id == "" then InvalidToken else Internal)
      ensures Load(db) == if up && deleteUp then SessionStore.Get(Load(old(db)), now, id).0 else Load(old(db))
    {
      hide SessionPrefix, IndexPrefix, SessionKey, IndexKey, Load, Typed;
      if id == "" {
        return Err(InvalidToken);
      }
      if !up {
        return Err(Internal);
      }
      LoadFind(db, now, id);
      var found := GetCommand(db, now, SessionKey(id));
      if found.None? {
        return Err(NotFound);
      }
      if now > found.value.expiresAt {
        var _ := Delete(now, found.value.id, deleteUp);
        return Err(InvalidToken);
      }
      return Ok(found.value);
    }

    method Delete(now: int, id: string, up: bool) returns (result: Outcome<()>)
      requires Typed(db)
      modifies this
      ensures Typed(db)
      ensures up ==> Load(db) == SessionStore.Delete(Load(old(db)), now, id)
      ensures !up ==> db == old(db)
      ensures result == if up || id == "" then Ok(()) else Err(Internal)
    {
      hide SessionPrefix, IndexPrefix, SessionKey, IndexKey, Load, Typed;
      if id == "" {
        return Ok(());
      }
      if !up {
        return Err(Internal);
      }
      LoadFind(db, now, id);
      var found := GetCommand(db, now, SessionKey(id));
      if found.None? {
        return Ok(());
      }
      LoadDrop(db, now, id, found.value);
      db := DelCommand(db, [SessionKey(id)]);
      db := SRemCommand(db, now, IndexKey(found.value.userId), found.value.id);
      return Ok(());
    }

    /** The optimistic rotation loop. */
    method Rotate(
      now: int, id: string, refreshId: string, next: AuthSession, ttl: int, rivals: Rivals)
      returns (result: Outcome<()>)
      requires Typed(db) && RivalsTyped(rivals)
      modifies this
      ensures Typed(db)
      ensures (Load(db), result) == RotateRaced(Load(old(db)), now, id, refreshId, next, ttl, rivals)
    {
      hide SessionPrefix, IndexPrefix, SessionKey, IndexKey, Load, Typed, SessionsView, IndexView, Put, Find,
        GetCommand, SetCommand, SAddCommand, ExpireCommand;
      if id == "" || refreshId == "" {
        return Err(InvalidToken);
      }
      if !Storable(next, ttl) || next.id != id {
        return Err(InvalidInput);
      }
      var attempt := 0;
      while attempt < MAXIMUM_ROTATION_ATTEMPTS
        invariant attempt <= MAXIMUM_ROTATION_ATTEMPTS
        invariant Typed(db)
        invariant Race(Load(db), now, id, refreshId, next, ttl, rivals, attempt) ==
                  RotateRaced(Load(old(db)), now, id, refreshId, next, ttl, rivals)
      {
        RaceStep(Load(db), now, id, refreshId, next, ttl, rivals, attempt);
        var rival := RivalAt(rivals, attempt);
        if rival.GetFails? {
          return Err(Internal);
        }
        LoadFind(db, now, id);
        var found := GetCommand(db, now, SessionKey(id));
        if found.None? || found.value.refreshId != refreshId || found.value.userId != next.userId {
          return Err(InvalidToken);
        }
        if rival.ExecFails? {
          return Err(Internal);
        }
        if rival.Calm? {
          LoadPut(db, now, next, ttl);
          db := SetCommand(db, now, SessionKey(id), next, ttl);
          db := SAddCommand(db, now, IndexKey(next.userId), next.id);
          db := ExpireCommand(db, now, IndexKey(next.userId), ttl);
          return Ok(());
        }
        db := rival.db;
        attempt := attempt + 1;
      }
      return Err(Internal);
    }

    /** The members of an index set, in the order in which the server lists them. */
    method ListMembers(now: int, userId: string) returns (ids: seq<string>)
      ensures forall id :: id in ids <==> id in SMembersCommand(db, now, IndexKey(userId))
    {
      var rest := SMembersCommand(db, now, IndexKey(userId));
      ids := [];
      while rest != {}
        invariant forall id :: id in SMembersCommand(db, now, IndexKey(userId)) <==> id in ids || id in rest
        decreases rest
      {
        var id :| id in rest;
        ids := ids + [id];
        rest := rest - {id};
      }
    }

    method DeleteAllForUser(now: int, userId: string, up: bool) returns (result: Outcome<()>)
      requires Typed(db)
      modifies this
      ensures Typed(db)
      ensures !up ==> db == old(db) && result == Err(if userId == "" then InvalidInput else Internal)
      ensures up ==> (Load(db), result) == SessionStore.DeleteAllForUser(Load(old(db)), now, userId)
    {
      hide SessionPrefix, IndexPrefix, SessionKey, IndexKey, Load, Typed, SMembersCommand, SessionsView, IndexView;
      if userId == "" {
        return Err(InvalidInput);
      }
      if !up {
        return Err(Internal);
      }
      var ids := ListMembers(now, userId);
      var keys := [];
      for i := 0 to |ids|
        invariant keys == SessionKeys(ids[..i])
      {
        keys := keys + [SessionKey(ids[i])];
      }
      keys := keys + [IndexKey(userId)];
      assert ids[..|ids|] == ids;
      ViewMembers(db, Load(db), now, userId);
      LoadErase(db, userId, ids, Members(Load(db), now, userId));
      db := DelCommand(db, keys);
      return Ok(());
    }
  }

  // ---- the loop against rivals ----

  /** Undisturbed, the loop is the atomic rotation. */
  lemma UnracedIsAtomic(store: Store, now: int, id: string, refreshId: string, next: AuthSession, ttl: int)
    ensures RotateRaced(store, now, id, refreshId, next, ttl, []) ==
            SessionStore.Rotate(store, now, id, refreshId, next, ttl)
  {
  }

  /** No rivals: Redis answers, or its first command fails. */
  function Alone(up: bool): Rivals {
    if up then [] else [GetFails]
  }

  /** A rotation whose first command fails changes nothing. */
  lemma AloneIsAtomic(store: Store, now: int, id: string, refreshId: string, next: AuthSession, ttl: int, up: bool)
    ensures RivalsTyped(Alone(up))
    ensures RotateRaced(store, now, id, refreshId, next, ttl, Alone(up)) ==
            SessionStore.RotateUnder(store, now, id, refreshId, next, ttl, up)
  {
    hide Put, Find;
  }

  /** The keyspace that an attempt finds, when all attempts before it met rivals. */
  ghost function StoreAt(store: Store, rivals: Rivals, attempt: nat): Store
    requires RivalsTyped(rivals)
  {
    if attempt > 0 && RivalAt(rivals, attempt - 1).Rival? then Load(RivalAt(rivals, attempt - 1).db) else store
  }

  /** The attempt finds the refresh id unspent. */
  ghost predicate Unspent(
    store: Store, now: int, id: string, refreshId: string, next: AuthSession, rivals: Rivals, attempt: nat)
    requires RivalsTyped(rivals)
  {
    SessionStore.CheckRotation(Find(StoreAt(store, rivals, attempt), now, id), refreshId, next)
  }

  /** Every attempt before this one found the id unspent and lost to a rival. */
  ghost predicate Reaches(
    store: Store, now: int, id: string, refreshId: string, next: AuthSession, rivals: Rivals, attempt: nat)
    requires RivalsTyped(rivals)
  {
    forall k :: 0 <= k < attempt ==>
      RivalAt(rivals, k).Rival? && Unspent(store, now, id, refreshId, next, rivals, k)
  }

  /** An attempt is cut short by a failing GET, or by a failing EXEC after its checks. */
  ghost predicate CutShort(
    store: Store, now: int, id: string, refreshId: string, next: AuthSession, rivals: Rivals, attempt: nat)
    requires RivalsTyped(rivals)
  {
    || RivalAt(rivals, attempt).GetFails?
    || (RivalAt(rivals, attempt).ExecFails? && Unspent(store, now, id, refreshId, next, rivals, attempt))
  }

  /** From any attempt that is reached, the loop ends with an internal error exactly when
      a later attempt is reached and cut short, or all of them are lost to rivals. */
  lemma {:induction false} RaceErrs(
    store: Store, now: int, id: string, refreshId: string, next: AuthSession, ttl: int, rivals: Rivals, attempt: nat)
    requires RivalsTyped(rivals) && attempt <= MAXIMUM_ROTATION_ATTEMPTS
    requires Reaches(store, now, id, refreshId, next, rivals, attempt)
    ensures Race(StoreAt(store, rivals, attempt), now, id, refreshId, next, ttl, rivals, attempt).1
            == Err(Internal) <==>
            || Reaches(store, now, id, refreshId, next, rivals, MAXIMUM_ROTATION_ATTEMPTS)
            || exists k :: attempt <= k < MAXIMUM_ROTATION_ATTEMPTS
                 && Reaches(store, now, id, refreshId, next, rivals, k)
                 && CutShort(store, now, id, refreshId, next, rivals, k)
    decreases MAXIMUM_ROTATION_ATTEMPTS - attempt
  {
    hide Load, Put, Find, SessionStore.CheckRotation;
    if attempt < MAXIMUM_ROTATION_ATTEMPTS {
      RaceStep(StoreAt(store, rivals, attempt), now, id, refreshId, next, ttl, rivals, attempt);
      hide Race;
      if RivalAt(rivals, attempt).Rival? && Unspent(store, now, id, refreshId, next, rivals, attempt) {
        RaceErrs(store, now, id, refreshId, next, ttl, rivals, attempt + 1);
      }
    }
  }

  /** A rotation ends with an internal error exactly when an attempt that all earlier
      rivals left the refresh id unspent for meets a failing command, or when three
      rivals in a row changed the session and the first two left the id unspent. */
  lemma GivesUpIff(store: Store, now: int, id: string, refreshId: string, next: AuthSession, ttl: int, rivals: Rivals)
    requires RivalsTyped(rivals)
    requires id != "" && refreshId != "" && Storable(next, ttl) && next.id == id
    ensures RotateRaced(store, now, id, refreshId, next, ttl, rivals).1 == Err(Internal) <==>
            || Reaches(store, now, id, refreshId, next, rivals, 3)
            || exists k :: 0 <= k < 3
                 && Reaches(store, now, id, refreshId, next, rivals, k)
                 && CutShort(store, now, id, refreshId, next, rivals, k)
  {
    hide Race, Load;
    RaceErrs(store, now, id, refreshId, next, ttl, rivals, 0);
  }

  /** A rival that spends the refresh id ends the loop at the second GET, if that answers,
      and the rival's keyspace stands. */
  lemma SpentIdEndsLoop(
    store: Store, now: int, id: string, refreshId: string, next: AuthSession, ttl: int, rivals: Rivals)
    requires RivalsTyped(rivals)
    requires id != "" && refreshId != "" && Storable(next, ttl) && next.id == id
    requires Reaches(store, now, id, refreshId, next, rivals, 1) && !Unspent(store, now, id, refreshId, next, rivals, 1)
    ensures RotateRaced(store, now, id, refreshId, next, ttl, rivals) ==
            (StoreAt(store, rivals, 1), Err(if RivalAt(rivals, 1).GetFails? then Internal else InvalidToken))
  {
    hide Load, Put, Race, Find, SessionStore.CheckRotation, RivalsTyped;
    assert RivalAt(rivals, 0).Rival? && Unspent(store, now, id, refreshId, next, rivals, 0);
    hide Reaches, RivalAt;
    RaceStep(store, now, id, refreshId, next, ttl, rivals, 0);
    RaceStep(StoreAt(store, rivals, 1), now, id, refreshId, next, ttl, rivals, 1);
  }
}
