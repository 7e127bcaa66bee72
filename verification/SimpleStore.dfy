/** The indexed store simulates the simple one: a map from session ids to sessions
    whose DeleteAllForUser looks at every entry. */
module SimpleStore {
  import opened Domain
  import opened Keyspace
  import SessionStore

  type Simple = map<string, AuthSession>

  datatype Request =
    | Create(session: AuthSession)
    | Get(id: string)
    | Rotate(id: string, refreshId: string, next: AuthSession)
    | Delete(id: string)
    | DeleteAllForUser(userId: string)
    | Wait(duration: nat)

  /** A reply: nothing, a session, or an error. */
  type Reply = Outcome<Option<AuthSession>>

  function SimpleStep(simple: Simple, now: int, request: Request): (Simple, Reply) {
    match request
    case Create(session) => (simple[session.id := session], Ok(None))
    case Get(id) =>
      if id !in simple then (simple, Err(NotFound))
      else if now > simple[id].expiresAt then (simple, Err(InvalidToken))
      else (simple, Ok(Some(simple[id])))
    case Rotate(id, refreshId, next) =>
      if id !in simple || simple[id].refreshId != refreshId || simple[id].userId != next.userId
      then (simple, Err(InvalidToken))
      else (simple[id := next], Ok(None))
    case Delete(id) => (simple - {id}, Ok(None))
    case DeleteAllForUser(userId) =>
      (map id | id in simple && simple[id].userId != userId :: simple[id], Ok(None))
    case Wait(_) => (simple, Ok(None))
  }

  function Silent(result: Outcome<()>): Reply {
    if result.Ok? then Ok(None) else Err(result.error)
  }

  function IndexedStep(store: Store, now: int, request: Request, ttl: int): (Store, Reply) {
    match request
    case Create(session) =>
      var (after, result) := SessionStore.Create(store, now, session, ttl);
      (after, Silent(result))
    case Get(id) =>
      var (after, result) := SessionStore.Get(store, now, id);
      (after, if result.Ok? then Ok(Some(result.value)) else Err(result.error))
    case Rotate(id, refreshId, next) =>
      var (after, result) := SessionStore.Rotate(store, now, id, refreshId, next, ttl);
      (after, Silent(result))
    case Delete(id) => (SessionStore.Delete(store, now, id), Ok(None))
    case DeleteAllForUser(userId) =>
      var (after, result) := SessionStore.DeleteAllForUser(store, now, userId);
      (after, Silent(result))
    case Wait(_) => (store, Ok(None))
  }

  function Later(now: int, request: Request): int {
    if request.Wait? then now + request.duration else now
  }

  /** Replies that agree up to the kind of error. */
  predicate Alike(a: Reply, b: Reply) {
    a == b || (a.Err? && b.Err?)
  }

  /** What Redis shows is in the map, and what is unexpired in the map Redis shows. */
  ghost predicate Simulates(store: Store, now: int, simple: Simple, ttl: int) {
    && SessionStore.Indexed(store, now, ttl)
    && (forall id :: Find(store, now, id).Some? ==> id in simple && simple[id] == Find(store, now, id).value)
    && (forall id :: id in simple && now <= simple[id].expiresAt ==> Find(store, now, id) == Some(simple[id]))
    && (forall id :: id in simple ==> simple[id].id == id != "")
    && (forall id :: id in store.sessions ==> store.sessions[id].value.expiresAt <= store.sessions[id].deadline)
  }

  /** The service's use of the store: valid sessions that do not outlive their ttl, new
      ids for new sessions, rotation to the same id, non-empty arguments. */
  predicate Proper(store: Store, now: int, request: Request, ttl: int) {
    match request
    case Create(session) =>
      Storable(session, ttl) && session.expiresAt <= now + ttl && SessionStore.Unused(store, session.id)
    case Rotate(id, refreshId, next) =>
      Storable(next, ttl) && next.expiresAt <= now + ttl && next.id == id && refreshId != ""
    case DeleteAllForUser(userId) => userId != ""
    case _ => true
  }

  /** Rotating, with its own refresh id, a session that the map still has and Redis has dropped. */
  predicate RotatesDropped(store: Store, now: int, simple: Simple, request: Request) {
    && request.Rotate?
    && request.id in simple
    && simple[request.id].refreshId == request.refreshId
    && simple[request.id].userId == request.next.userId
    && Find(store, now, request.id).None?
  }

  /** A session that Redis has dropped is past its expiry. */
  lemma DroppedIsExpired(store: Store, now: int, simple: Simple, request: Request, ttl: int)
    requires Simulates(store, now, simple, ttl) && RotatesDropped(store, now, simple, request)
    ensures now > simple[request.id].expiresAt
  {
    hide SessionStore.Indexed;
  }

  lemma PutSimulates(store: Store, now: int, simple: Simple, session: AuthSession, ttl: int)
    requires Simulates(store, now, simple, ttl)
    requires Storable(session, ttl) && session.expiresAt <= now + ttl
    requires SessionStore.Unused(store, session.id) ||
             (Find(store, now, session.id).Some? && store.sessions[session.id].value.userId == session.userId)
    ensures Simulates(Put(store, now, session, ttl), now, simple[session.id := session], ttl)
  {
    SessionStore.PutKeepsIndex(store, now, session, ttl);
    hide SessionStore.Indexed;
  }

  lemma DropSimulates(store: Store, now: int, simple: Simple, id: string, ttl: int)
    requires Simulates(store, now, simple, ttl) && Find(store, now, id).Some?
    ensures var after := Drop(store, now, id, Find(store, now, id).value);
      && Simulates(after, now, simple - {id}, ttl)
      && (now > Find(store, now, id).value.expiresAt ==> Simulates(after, now, simple, ttl))
  {
    SessionStore.DropKeepsIndex(store, now, id, ttl);
    DropEffect(store, now, id, Find(store, now, id).value);
    hide SessionStore.Indexed, Drop;
  }

  lemma DeleteAllSimulates(store: Store, now: int, simple: Simple, userId: string, ttl: int)
    requires Simulates(store, now, simple, ttl) && userId != ""
    ensures Simulates(
              IndexedStep(store, now, DeleteAllForUser(userId), ttl).0, now,
              SimpleStep(simple, now, DeleteAllForUser(userId)).0, ttl)
  {
    SessionStore.DeleteAllIsExact(store, now, userId, ttl);
    hide SessionStore.Indexed, Erase, Members;
  }

  lemma WaitSimulates(store: Store, now: int, simple: Simple, d: nat, ttl: int)
    requires Simulates(store, now, simple, ttl)
    ensures Simulates(store, now + d, simple, ttl)
  {
    SessionStore.TimeKeepsIndex(store, now, now + d, ttl);
    hide SessionStore.Indexed;
  }

  /** One request: the stores answer alike, up to the kind of error, if and only if it does
      not rotate a dropped session, and then the simulation goes on. */
  lemma StepSimulates(store: Store, now: int, simple: Simple, request: Request, ttl: int)
    requires Simulates(store, now, simple, ttl) && Proper(store, now, request, ttl)
    ensures Alike(IndexedStep(store, now, request, ttl).1, SimpleStep(simple, now, request).1)
            <==> !RotatesDropped(store, now, simple, request)
    ensures !RotatesDropped(store, now, simple, request) ==>
              Simulates(
                IndexedStep(store, now, request, ttl).0, Later(now, request), SimpleStep(simple, now, request).0, ttl)
  {
    hide SessionStore.Indexed, SessionStore.Unused, Put, Drop, Erase;
    match request
    case Create(session) => PutSimulates(store, now, simple, session, ttl);
    case Get(id) =>
      if Find(store, now, id).Some? {
        DropSimulates(store, now, simple, id, ttl);
      }
    case Rotate(id, refreshId, next) =>
      if SessionStore.CheckRotation(Find(store, now, id), refreshId, next) {
        PutSimulates(store, now, simple, next, ttl);
      }
    case Delete(id) =>
      if Find(store, now, id).Some? {
        DropSimulates(store, now, simple, id, ttl);
      } else {
        DeleteNothing(store, now, simple, id, ttl);
      }
    case DeleteAllForUser(userId) => DeleteAllSimulates(store, now, simple, userId, ttl);
    case Wait(d) => WaitSimulates(store, now, simple, d, ttl);
  }

  lemma DeleteNothing(store: Store, now: int, simple: Simple, id: string, ttl: int)
    requires Simulates(store, now, simple, ttl) && Find(store, now, id).None?
    ensures Simulates(store, now, simple - {id}, ttl)
  {
    hide SessionStore.Indexed;
  }

  /** A run of requests that are proper when their turn comes. */
  predicate ProperRun(store: Store, now: int, requests: seq<Request>, ttl: int)
    decreases |requests|
  {
    requests == [] ||
    (&& Proper(store, now, requests[0], ttl)
     && ProperRun(IndexedStep(store, now, requests[0], ttl).0, Later(now, requests[0]), requests[1..], ttl))
  }

  /** Some request of the run rotates a session that Redis has dropped by then. */
  predicate SomeDropped(store: Store, now: int, simple: Simple, requests: seq<Request>, ttl: int)
    decreases |requests|
  {
    requests != [] &&
    var r := requests[0];
    || RotatesDropped(store, now, simple, r)
    || SomeDropped(IndexedStep(store, now, r, ttl).0, Later(now, r), SimpleStep(simple, now, r).0, requests[1..], ttl)
  }

  /** Every rotation of a known session comes before its expiry. */
  predicate InTime(simple: Simple, now: int, requests: seq<Request>)
    decreases |requests|
  {
    requests == [] ||
    var r := requests[0];
    && (r.Rotate? && r.id in simple ==> now <= simple[r.id].expiresAt)
    && InTime(SimpleStep(simple, now, r).0, Later(now, r), requests[1..])
  }

  function IndexedReplies(store: Store, now: int, requests: seq<Request>, ttl: int): seq<Reply>
    decreases |requests|
  {
    if requests == [] then []
    else
      var (after, reply) := IndexedStep(store, now, requests[0], ttl);
      [reply] + IndexedReplies(after, Later(now, requests[0]), requests[1..], ttl)
  }

  function SimpleReplies(simple: Simple, now: int, requests: seq<Request>): seq<Reply>
    decreases |requests|
  {
    if requests == [] then []
    else
      var (after, reply) := SimpleStep(simple, now, requests[0]);
      [reply] + SimpleReplies(after, Later(now, requests[0]), requests[1..])
  }

  lemma {:induction false} ReplyCounts(store: Store, simple: Simple, now: int, requests: seq<Request>, ttl: int)
    ensures |IndexedReplies(store, now, requests, ttl)| == |SimpleReplies(simple, now, requests)| == |requests|
    decreases |requests|
  {
    hide IndexedStep, SimpleStep;
    if requests != [] {
      var r := requests[0];
      ReplyCounts(
        IndexedStep(store, now, r, ttl).0, SimpleStep(simple, now, r).0, Later(now, r), requests[1..], ttl);
    }
  }

  /** Request by request the replies are alike. */
  predicate RepliesAlike(a: seq<Reply>, b: seq<Reply>) {
    |a| == |b| && (a != [] ==> Alike(a[0], b[0]) && RepliesAlike(a[1..], b[1..]))
  }

  /** Refinement: over any run of proper requests the two stores cannot be told apart,
      except by the kind of an error, if and only if no request rotates a session that
      Redis has dropped. */
  lemma {:induction false} RunSimulates(store: Store, now: int, simple: Simple, requests: seq<Request>, ttl: int)
    requires Simulates(store, now, simple, ttl) && ProperRun(store, now, requests, ttl)
    ensures RepliesAlike(IndexedReplies(store, now, requests, ttl), SimpleReplies(simple, now, requests))
            <==> !SomeDropped(store, now, simple, requests, ttl)
    decreases |requests|
  {
    hide Simulates, Proper, Alike, RotatesDropped, IndexedStep, SimpleStep;
    if requests != [] {
      var r := requests[0];
      StepSimulates(store, now, simple, r, ttl);
      var after, plain := IndexedStep(store, now, r, ttl).0, SimpleStep(simple, now, r).0;
      ReplyCounts(after, plain, Later(now, r), requests[1..], ttl);
      HeadAndTail(
        IndexedStep(store, now, r, ttl).1, IndexedReplies(after, Later(now, r), requests[1..], ttl),
        SimpleStep(simple, now, r).1, SimpleReplies(plain, Later(now, r), requests[1..]));
      if !RotatesDropped(store, now, simple, r) {
        RunSimulates(after, Later(now, r), plain, requests[1..], ttl);
      }
    }
  }

  lemma HeadAndTail(a: Reply, rest: seq<Reply>, b: Reply, more: seq<Reply>)
    requires |rest| == |more|
    ensures RepliesAlike([a] + rest, [b] + more) <==> Alike(a, b) && RepliesAlike(rest, more)
  {
    hide Alike;
    assert ([a] + rest)[1..] == rest && ([b] + more)[1..] == more;
  }

  /** For a caller the clock is enough: while sessions are rotated before they expire, the
      stores cannot be told apart. */
  lemma RunInTimeSimulates(store: Store, now: int, simple: Simple, requests: seq<Request>, ttl: int)
    requires Simulates(store, now, simple, ttl) && ProperRun(store, now, requests, ttl)
    requires InTime(simple, now, requests)
    ensures RepliesAlike(IndexedReplies(store, now, requests, ttl), SimpleReplies(simple, now, requests))
  {
    InTimeDropsNone(store, now, simple, requests, ttl);
    RunSimulates(store, now, simple, requests, ttl);
  }

  lemma {:induction false} InTimeDropsNone(store: Store, now: int, simple: Simple, requests: seq<Request>, ttl: int)
    requires Simulates(store, now, simple, ttl) && ProperRun(store, now, requests, ttl)
    requires InTime(simple, now, requests)
    ensures !SomeDropped(store, now, simple, requests, ttl)
    decreases |requests|
  {
    hide Simulates, Proper, Alike, IndexedStep, SimpleStep;
    if requests != [] {
      var r := requests[0];
      if RotatesDropped(store, now, simple, r) {
        DroppedIsExpired(store, now, simple, r, ttl);
      }
      StepSimulates(store, now, simple, r, ttl);
      InTimeDropsNone(
        IndexedStep(store, now, r, ttl).0, Later(now, r), SimpleStep(simple, now, r).0, requests[1..], ttl);
    }
  }

  /** One input on which the stores differ: a session past its expiry, gone from Redis and
      still in the map, is rotated with its own refresh id. */
  lemma DroppedRotationDiffers() returns (simple: Simple, request: Request)
    ensures Simulates(Store(map[], map[]), 2, simple, 1) && Proper(Store(map[], map[]), 2, request, 1)
    ensures IndexedStep(Store(map[], map[]), 2, request, 1).1 == Err(InvalidToken)
    ensures SimpleStep(simple, 2, request).1 == Ok(None)
  {
    simple := map["s" := AuthSession("s", "u", "e", [], "x", "y", 0, 1)];
    request := Rotate("s", "y", AuthSession("s", "u", "e", [], "v", "w", 0, 3));
  }
}
