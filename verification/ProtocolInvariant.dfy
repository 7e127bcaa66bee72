/** What every step of the protocol keeps. */
module ProtocolInvariant {
  import opened Domain
  import opened Keyspace
  import opened Tokens
  import opened Protocol

  function Last(generations: seq<AuthSession>): AuthSession
    requires generations != []
  {
    generations[|generations| - 1]
  }

  function Owner(core: Core, id: string): string {
    if Generations(core, id) != [] then core.history[id][0].userId else ""
  }

  /** All generations of one session: same id, user and creation time, never an
      earlier expiry. */
  predicate Lineage(id: string, generations: seq<AuthSession>) {
    && generations != []
    && (forall i :: 0 <= i < |generations| ==>
        && generations[i].id == id
        && generations[i].userId == generations[0].userId
        && generations[i].createdAt == generations[0].createdAt != ZERO_TIME)
    && (forall i, j :: 0 <= i <= j < |generations| ==> generations[i].expiresAt <= generations[j].expiresAt)
  }

  predicate HistoryOk(core: Core, ttl: Lifetimes) {
    && core.now > ZERO_TIME
    && (forall id :: id in core.history ==>
        && Lineage(id, core.history[id])
        && Last(core.history[id]).expiresAt <= core.now + ttl.refresh
        && id in core.origins && core.origins[id].SessionName?)
  }

  /** The ids of generation g of a session, and no others, are recorded as exactly that. */
  predicate OriginsOk(core: Core) {
    && (forall id, g, kind :: id in core.history && 0 <= g < |core.history[id]| ==>
        && TokenId(core.history[id][g], kind) in core.origins
        && core.origins[TokenId(core.history[id][g], kind)] == Stored(id, g, kind))
    && (forall x :: x in core.origins && core.origins[x].Stored? ==> HoldsId(core, core.origins[x], x))
  }

  predicate HoldsId(core: Core, o: Origin, x: string)
    requires o.Stored?
  {
    && o.sessionId in core.history
    && o.generation < |core.history[o.sessionId]|
    && TokenId(core.history[o.sessionId][o.generation], o.kind) == x
  }

  predicate CellsOk(core: Core, ttl: Lifetimes) {
    forall id :: id in core.store.sessions ==>
      && id in core.history && core.history[id] != []
      && core.store.sessions[id].value == Last(core.history[id])
      && core.store.sessions[id].value.expiresAt <= core.store.sessions[id].deadline <= core.now + ttl.refresh
      && id !in core.killed
  }

  predicate TouchedOk(core: Core) {
    && core.stamp > 0
    && (forall id :: id in core.touched ==> core.touched[id] < core.stamp)
    && (forall id :: id in core.lastAdd ==> core.lastAdd[id] < core.stamp)
    && core.killed <= core.history.Keys
  }

  /** A token was signed together with a session and agrees with it. */
  predicate SignedWith(token: Claims, session: AuthSession, ttl: Lifetimes) {
    && token.sessionId == session.id
    && Fits(token, session)
    && token.issuedAt == Truncate(session.expiresAt - ttl.refresh)
    && token.expiresAt == Truncate(session.expiresAt - ttl.refresh + Lifetime(ttl, token.kind))
  }

  predicate SignedOk(core: Core, ttl: Lifetimes) {
    && (forall t :: t in core.signed ==>
        && t.id in core.origins
        && (core.origins[t.id].SessionName? ==> false)
        && core.origins[t.id].kind == t.kind
        && (core.origins[t.id].Stored? ==>
            var o := core.origins[t.id];
            && o.sessionId in core.history && o.generation < |core.history[o.sessionId]|
            && SignedWith(t, core.history[o.sessionId][o.generation], ttl)))
    && (forall t, u :: t in core.signed && u in core.signed && t.id == u.id ==> t == u)
  }

  /** The stamp of the session's last SADD. */
  function Added(core: Core, id: string): nat {
    if id in core.lastAdd then core.lastAdd[id] else 0
  }

  /** A sweep whose snapshot missed the session although it was added before the DEL. */
  predicate Missed(sweep: Sweep, userId: string, id: string, added: nat) {
    && sweep.userId == userId
    && sweep.listed < added < sweep.erased
    && id !in sweep.ids
  }

  ghost predicate Swept(core: Core, id: string) {
    exists k :: 0 <= k < |core.sweeps| && Missed(core.sweeps[k], Owner(core, id), id, Added(core, id))
  }

  predicate Covered(core: Core, id: string)
    requires id in core.store.sessions
  {
    var u := core.store.sessions[id].value.userId;
    && u in core.store.index
    && id in core.store.index[u].value
    && core.store.sessions[id].deadline <= core.store.index[u].deadline
  }

  predicate MembersOk(core: Core, ttl: Lifetimes) {
    && (forall u, id :: u in core.store.index && id in core.store.index[u].value ==>
        && id in core.history && Owner(core, id) == u
        && (forall k :: 0 <= k < |core.sweeps| && core.sweeps[k].userId == u ==>
            core.sweeps[k].erased < Added(core, id)))
    && (forall u :: u in core.store.index ==> core.store.index[u].deadline <= core.now + ttl.refresh)
    && (forall k :: 0 <= k < |core.sweeps| ==> core.sweeps[k].listed < core.sweeps[k].erased < core.stamp)
  }

  ghost predicate CoverageOk(core: Core) {
    forall id :: id in core.store.sessions && Live(core.store.sessions[id], core.now) ==>
      Covered(core, id) || Swept(core, id)
  }

  ghost predicate CoreOk(core: Core, ttl: Lifetimes) {
    && ttl.Valid()
    && HistoryOk(core, ttl)
    && OriginsOk(core)
    && CellsOk(core, ttl)
    && TouchedOk(core)
    && SignedOk(core, ttl)
    && MembersOk(core, ttl)
    && CoverageOk(core)
  }

  // ---- clients ----

  /** The refresh id that session `id` shows now is `refreshId`. */
  predicate Current(core: Core, id: string, refreshId: string) {
    Find(core.store, core.now, id).Some? && Find(core.store, core.now, id).value.refreshId == refreshId
  }

  /** A minted pair that its client has not stored. */
  predicate PairPending(core: Core, c: nat, next: AuthSession, ttl: Lifetimes) {
    && next.accessId in core.origins && core.origins[next.accessId] == Pending(c, Access)
    && next.refreshId in core.origins && core.origins[next.refreshId] == Pending(c, Refresh)
    && next.createdAt != ZERO_TIME
    && next.expiresAt <= core.now + ttl.refresh
    && (forall t :: t in core.signed && (t.id == next.accessId || t.id == next.refreshId) ==> SignedWith(t, next, ttl))
  }

  /** The refresh id was stored in some generation of the session. */
  predicate WasCurrent(core: Core, id: string, refreshId: string) {
    && refreshId in core.origins
    && core.origins[refreshId].Stored?
    && core.origins[refreshId].kind == Refresh
    && core.origins[refreshId].sessionId == id
    && id in core.history
    && core.origins[refreshId].generation < |core.history[id]|
    && core.history[id][core.origins[refreshId].generation].refreshId == refreshId
  }

  function GenerationOf(core: Core, id: string, refreshId: string): AuthSession
    requires WasCurrent(core, id, refreshId)
  {
    core.history[id][core.origins[refreshId].generation]
  }

  predicate JobOk(core: Core, c: nat, job: Job, ttl: Lifetimes) {
    && job.token in core.signed
    && job.token.kind == Refresh
    && job.token.sessionId == job.sessionId == job.next.id
    && WasCurrent(core, job.sessionId, job.token.id)
    && PairPending(core, c, job.next, ttl)
    && job.next.createdAt == GenerationOf(core, job.sessionId, job.token.id).createdAt
    && job.next.expiresAt >= GenerationOf(core, job.sessionId, job.token.id).expiresAt
  }

  predicate JobCurrent(core: Core, job: Job) {
    Current(core, job.sessionId, job.token.id)
  }

  /** Since the WATCH either nothing happened to the key, or the presented token is spent. */
  predicate WatchOk(core: Core, job: Job, seen: nat) {
    && seen < core.stamp
    && (JobCurrent(core, job) ==> Version(core, job.sessionId) == seen)
  }

  ghost predicate SnapshotOk(core: Core, userId: string, ids: set<string>, listed: nat) {
    && listed < core.stamp
    && (forall id :: id in ids ==> id in core.history && Owner(core, id) == userId)
    && (forall id ::
          id in core.store.sessions && Live(core.store.sessions[id], core.now)
          && Owner(core, id) == userId && Added(core, id) <= listed ==>
          id in ids || Swept(core, id))
  }

  ghost predicate PcOk(core: Core, c: nat, pc: Pc, ttl: Lifetimes)
  {
    match pc
    case Idle => true
    case Creating(next) =>
      && PairPending(core, c, next, ttl)
      && next.id in core.origins && core.origins[next.id] == SessionName(c)
      && next.id !in core.history
    case Fetching(goal, token) => token in core.signed && (goal == Renew ==> token.kind == Refresh)
    case Looking(token, session) =>
      && token in core.signed && token.kind == Refresh
      && token.sessionId == session.id
      && WasCurrent(core, session.id, token.id)
      && session == GenerationOf(core, session.id, token.id)
    case Watching(job, attempt) =>
      && JobOk(core, c, job, ttl)
      && attempt <= 1
      && (attempt == 1 ==> !JobCurrent(core, job))
    case Reading(job, attempt, seen) =>
      && JobOk(core, c, job, ttl)
      && attempt <= 1
      && (attempt == 1 ==> !JobCurrent(core, job))
      && WatchOk(core, job, seen)
    case Executing(job, attempt, seen) =>
      && JobOk(core, c, job, ttl)
      && attempt == 0
      && WatchOk(core, job, seen)
      && (Version(core, job.sessionId) == seen ==>
          && job.sessionId in core.store.sessions
          && core.store.sessions[job.sessionId].value.refreshId == job.token.id
          && core.store.sessions[job.sessionId].value.userId == job.next.userId)
    case DeleteReading(id) => id in core.history
    case DeleteExecuting(id, session) => id in core.history && session.id == id && session.userId == Owner(core, id)
    case Listing(_) => true
    case Erasing(userId, ids, listed) => SnapshotOk(core, userId, ids, listed)
  }

  ghost predicate ClientsOk(s: State, ttl: Lifetimes)
  {
    forall c :: c in s.clients ==> PcOk(s.core, c, s.clients[c], ttl)
  }

  /** A successful refresh consumed its generation and produced the next one. */
  predicate Won(core: Core, ending: Ending) {
    ending.result.Ok? ==>
      && ending.token.sessionId == ending.result.value.id
      && WasCurrent(core, ending.token.sessionId, ending.token.id)
      && var g := core.origins[ending.token.id].generation + 1;
         && g < |core.history[ending.token.sessionId]|
         && core.history[ending.token.sessionId][g] == ending.result.value
  }

  predicate EndingsOk(core: Core, ended: seq<Ending>) {
    && (forall k :: 0 <= k < |ended| ==> Won(core, ended[k]))
    && (forall j, k :: 0 <= j < k < |ended| && ended[j].result.Ok? && ended[k].result.Ok? ==>
        ended[j].token.id != ended[k].token.id)
  }

  ghost predicate Inv(s: State, ttl: Lifetimes) {
    && CoreOk(s.core, ttl)
    && ClientsOk(s, ttl)
    && EndingsOk(s.core, s.ended)
  }
}
