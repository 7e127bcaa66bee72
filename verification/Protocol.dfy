/** The session protocol as a state machine over single Redis commands. Any
    number of clients run service calls at once; a step is one command, one
    MULTI/EXEC block, one user lookup, one clock tick or one expiry. */
module Protocol {
  import opened Domain
  import opened Keyspace
  import opened Tokens

  const MAX_ATTEMPTS: nat := 3

  /** Who holds an identifier: a client that minted it and has not stored it, or
      one generation of one session. Session ids carry the client that minted them. */
  datatype Origin =
    | SessionName(client: nat)
    | Pending(client: nat, kind: TokenType)
    | Stored(sessionId: string, generation: nat, kind: TokenType)

  /** One finished DeleteAllForUser: the stamps of its SMEMBERS and of its DEL,
      and the members it saw. */
  datatype Sweep = Sweep(userId: string, ids: set<string>, listed: nat, erased: nat)

  /** Shared state: the clock, the keyspace, the issued tokens, and the record of
      what has happened so far. `stamp` numbers the commands that write or list;
      `touched` is the stamp of the last change to a session key, which is what
      WATCH compares. */
  datatype Core = Core(
    now: int,
    stamp: nat,
    store: Store,
    touched: map<string, nat>,
    signed: set<Claims>,
    origins: map<string, Origin>,
    history: map<string, seq<AuthSession>>,
    killed: set<string>,
    lastAdd: map<string, nat>,
    sweeps: seq<Sweep>)

  /** The arguments of a Rotate call. */
  datatype Job = Job(sessionId: string, token: Claims, next: AuthSession)

  datatype Goal = Check | Renew | Leave | LeaveAll

  /** A client's program counter: the command it runs next, with its locals. */
  datatype Pc =
    | Idle
    | Creating(next: AuthSession)
    | Fetching(goal: Goal, token: Claims)
    | Looking(token: Claims, session: AuthSession)
    | Watching(job: Job, attempt: nat)
    | Reading(job: Job, attempt: nat, seen: nat)
    | Executing(job: Job, attempt: nat, seen: nat)
    | DeleteReading(sessionId: string)
    | DeleteExecuting(sessionId: string, session: AuthSession)
    | Listing(userId: string)
    | Erasing(userId: string, ids: set<string>, listed: nat)

  /** The result of one finished RefreshToken call. */
  datatype Ending = Ending(token: Claims, result: Outcome<AuthSession>)

  datatype State = State(core: Core, clients: map<nat, Pc>, ended: seq<Ending>)

  datatype Action =
    | Tick(duration: nat)
    | Expire(sessionId: string)
    | ExpireIndex(userId: string)
    | Login(client: nat, user: User, roles: seq<string>, sessionId: string, accessId: string, refreshId: string)
    | Present(client: nat, goal: Goal, token: Claims)
    | Revoke(client: nat, userId: string)
    | Lookup(client: nat, found: Outcome<User>, roles: seq<string>, accessId: string, refreshId: string)
    | Command(client: nat, expiryAborts: bool)
    | Fault(client: nat)

  // ---- effects on the shared state ----

  function Version(core: Core, id: string): nat {
    if id in core.touched then core.touched[id] else 0
  }

  function Generations(core: Core, id: string): seq<AuthSession> {
    if id in core.history then core.history[id] else []
  }

  /** issueTokenPair: two fresh token ids, and both tokens signed. */
  function Mint(core: Core, client: nat, next: AuthSession, ttl: Lifetimes): Core {
    core.(
      signed := core.signed + {MintToken(next, Access, core.now, ttl), MintToken(next, Refresh, core.now, ttl)},
      origins := core.origins[next.accessId := Pending(client, Access)][next.refreshId := Pending(client, Refresh)])
  }

  /** The EXEC of Create and of Rotate. */
  function Publish(core: Core, next: AuthSession, ttl: int): Core {
    var generations := Generations(core, next.id);
    core.(
      stamp := core.stamp + 1,
      store := Put(core.store, core.now, next, ttl),
      touched := core.touched[next.id := core.stamp],
      origins := core.origins
        [next.accessId := Stored(next.id, |generations|, Access)]
        [next.refreshId := Stored(next.id, |generations|, Refresh)],
      history := core.history[next.id := generations + [next]],
      lastAdd := core.lastAdd[next.id := core.stamp])
  }

  function Touch(core: Core, ids: set<string>): map<string, nat> {
    core.touched + (map id | id in ids * core.store.sessions.Keys :: core.stamp)
  }

  /** The EXEC of Delete. */
  function Kill(core: Core, id: string, session: AuthSession): Core {
    core.(
      stamp := core.stamp + 1,
      store := Drop(core.store, core.now, id, session),
      touched := Touch(core, {id}),
      killed := core.killed + {id})
  }

  /** The DEL of DeleteAllForUser. */
  function KillAll(core: Core, userId: string, ids: set<string>, listed: nat): Core {
    core.(
      stamp := core.stamp + 1,
      store := Erase(core.store, userId, ids),
      touched := Touch(core, ids),
      killed := core.killed + ids,
      sweeps := core.sweeps + [Sweep(userId, ids, listed, core.stamp)])
  }

  /** Active expiry of a session key. */
  function Reap(core: Core, id: string): Core {
    core.(
      stamp := core.stamp + 1,
      store := core.store.(sessions := core.store.sessions - {id}),
      touched := Touch(core, {id}))
  }

  // ---- one step ----

  function PcOf(s: State, client: nat): Pc {
    if client in s.clients then s.clients[client] else Idle
  }

  function Goto(s: State, core: Core, client: nat, pc: Pc): State {
    s.(core := core, clients := s.clients[client := pc])
  }

  /** A RefreshToken call of `client` returns. */
  function End(s: State, core: Core, client: nat, token: Claims, result: Outcome<AuthSession>): State {
    Goto(s, core, client, Idle).(ended := s.ended + [Ending(token, result)])
  }

  /** A call that presented a token is turned away; only refreshes are recorded. */
  function Reject(s: State, client: nat, goal: Goal, token: Claims): State {
    if goal == Renew then End(s, s.core, client, token, Err(InvalidToken)) else Goto(s, s.core, client, Idle)
  }

  predicate Fresh(core: Core, ids: seq<string>) {
    && (forall i :: 0 <= i < |ids| ==> ids[i] != "" && ids[i] !in core.origins)
    && (forall i, j :: 0 <= i < j < |ids| ==> ids[i] != ids[j])
  }

  /** What the environment guarantees: fresh identifiers, unforgeable tokens,
      one call at a time per client, and expiry not before the deadline. */
  predicate Enabled(s: State, a: Action) {
    match a
    case Tick(_) => true
    case Expire(id) => id in s.core.store.sessions && !Live(s.core.store.sessions[id], s.core.now)
    case ExpireIndex(u) => u in s.core.store.index && !Live(s.core.store.index[u], s.core.now)
    case Login(c, user, _, id, accessId, refreshId) =>
      PcOf(s, c) == Idle && Fresh(s.core, [id, accessId, refreshId])
    case Present(c, _, token) => PcOf(s, c) == Idle && token in s.core.signed
    case Revoke(c, _) => PcOf(s, c) == Idle
    case Lookup(c, _, _, accessId, refreshId) =>
      PcOf(s, c).Looking? && Fresh(s.core, [accessId, refreshId])
    case Command(c, _) => !PcOf(s, c).Idle? && !PcOf(s, c).Looking?
    case Fault(c) => !PcOf(s, c).Idle?
  }

  function Next(s: State, a: Action, ttl: Lifetimes): State {
    match a
    case Tick(d) => s.(core := s.core.(now := s.core.now + d))
    case Expire(id) => s.(core := Reap(s.core, id))
    case ExpireIndex(u) =>
      s.(core := s.core.(store := s.core.store.(index := s.core.store.index - {u})))
    case Login(c, user, roles, id, accessId, refreshId) =>
      var next := MintSession(user, roles, id, s.core.now, s.core.now, accessId, refreshId, ttl);
      var core := Mint(s.core.(origins := s.core.origins[id := SessionName(c)]), c, next, ttl);
      Goto(s, core, c, if Storable(next, ttl.refresh) then Creating(next) else Idle)
    case Present(c, goal, token) =>
      if Parses(token, s.core.now) && (goal == Check || token.kind == if goal == Renew then Refresh else Access)
      then Goto(s, s.core, c, Fetching(goal, token))
      else Reject(s, c, goal, token)
    case Revoke(c, userId) => Goto(s, s.core, c, if userId == "" then Idle else Listing(userId))
    case Lookup(c, found, roles, accessId, refreshId) =>
      LookupStep(s, c, PcOf(s, c), found, roles, accessId, refreshId, ttl)
    case Command(c, expiryAborts) => CommandStep(s, c, PcOf(s, c), expiryAborts, ttl)
    case Fault(c) => FaultStep(s, c, PcOf(s, c))
  }

  /** RefreshToken from the user lookup to the call of Rotate. */
  function LookupStep(
    s: State, c: nat, pc: Pc, found: Outcome<User>, roles: seq<string>,
    accessId: string, refreshId: string, ttl: Lifetimes): State
  {
    if !pc.Looking? then s
    else if found.Err? then End(s, s.core, c, pc.token, Err(InvalidToken))
    else if found.value.status != Active then End(s, s.core, c, pc.token, Err(Forbidden))
    else
      var next := MintSession(
        found.value, roles, pc.session.id, pc.session.createdAt, s.core.now, accessId, refreshId, ttl);
      var core := Mint(s.core, c, next, ttl);
      if Storable(next, ttl.refresh)
      then Goto(s, core, c, Watching(Job(pc.session.id, pc.token, next), 0))
      else End(s, core, c, pc.token, Err(InvalidInput))
  }

  /** The next command of a client, and what the service does with the reply. */
  function CommandStep(s: State, c: nat, pc: Pc, expiryAborts: bool, ttl: Lifetimes): State {
    match pc
    case Idle => s
    case Looking(_, _) => s
    case Creating(next) => Goto(s, Publish(s.core, next, ttl.refresh), c, Idle)
    case Fetching(goal, token) => FetchStep(s, c, goal, token)
    case Watching(job, attempt) =>
      Goto(s, s.core, c, Reading(job, attempt, Version(s.core, job.sessionId)))
    case Reading(job, attempt, seen) =>
      var found := Find(s.core.store, s.core.now, job.sessionId);
      if found.None? || found.value.refreshId != job.token.id || found.value.userId != job.next.userId
      then End(s, s.core, c, job.token, Err(InvalidToken))
      else Goto(s, s.core, c, Executing(job, attempt, seen))
    case Executing(job, attempt, seen) =>
      if !ExecFails(s.core, job.sessionId, seen, expiryAborts)
      then End(s, Publish(s.core, job.next, ttl.refresh), c, job.token, Ok(job.next))
      else if attempt + 1 < MAX_ATTEMPTS then Goto(s, s.core, c, Watching(job, attempt + 1))
      else End(s, s.core, c, job.token, Err(Internal))
    case DeleteReading(id) =>
      var found := Find(s.core.store, s.core.now, id);
      Goto(s, s.core, c, if found.None? then Idle else DeleteExecuting(id, found.value))
    case DeleteExecuting(id, session) => Goto(s, Kill(s.core, id, session), c, Idle)
    case Listing(userId) =>
      Goto(s, s.core.(stamp := s.core.stamp + 1), c,
           Erasing(userId, Members(s.core.store, s.core.now, userId), s.core.stamp))
    case Erasing(userId, ids, listed) => Goto(s, KillAll(s.core, userId, ids, listed), c, Idle)
  }

  /** The GET of validateToken, its lazy deletion and its checks. */
  function FetchStep(s: State, c: nat, goal: Goal, token: Claims): State {
    var found := Find(s.core.store, s.core.now, token.sessionId);
    if found.None? then Reject(s, c, goal, token)
    else if s.core.now > found.value.expiresAt then
      Reject(s, c, goal, token).(clients := s.clients[c := DeleteReading(found.value.id)])
    else if !Fits(token, found.value) then Reject(s, c, goal, token)
    else
      Goto(s, s.core, c,
           match goal
           case Check => Idle
           case Renew => Looking(token, found.value)
           case Leave => DeleteReading(token.sessionId)
           case LeaveAll => Listing(token.subject))
  }

  /** EXEC fails when the watched key was changed. A key that only ran past its
      deadline aborts it or not, depending on the server version. */
  predicate ExecFails(core: Core, id: string, seen: nat, expiryAborts: bool) {
    || Version(core, id) != seen
    || (expiryAborts && Find(core.store, core.now, id).None?)
  }

  /** The next command, or the user lookup, fails cleanly and without effect. */
  function FaultStep(s: State, c: nat, pc: Pc): State {
    match pc
    case Fetching(goal, token) => Reject(s, c, goal, token)
    case Looking(token, _) => End(s, s.core, c, token, Err(InvalidToken))
    case Watching(job, _) => End(s, s.core, c, job.token, Err(Internal))
    case Reading(job, _, _) => End(s, s.core, c, job.token, Err(Internal))
    case Executing(job, _, _) => End(s, s.core, c, job.token, Err(Internal))
    case _ => Goto(s, s.core, c, Idle)
  }

  // ---- runs ----

  predicate Initial(s: State) {
    && s.clients == map[]
    && s.ended == []
    && s.core.now > ZERO_TIME
    && s.core.stamp == 1
    && s.core.store == Store(map[], map[])
    && s.core.touched == map[]
    && s.core.signed == {}
    && s.core.origins == map[]
    && s.core.history == map[]
    && s.core.killed == {}
    && s.core.lastAdd == map[]
    && s.core.sweeps == []
  }

  /** Every action of the list is enabled when its turn comes. */
  predicate CanRun(s: State, run: seq<Action>, ttl: Lifetimes)
    decreases |run|
  {
    run == [] || (Enabled(s, run[0]) && CanRun(Next(s, run[0], ttl), run[1..], ttl))
  }

  function After(s: State, run: seq<Action>, ttl: Lifetimes): State
    decreases |run|
  {
    if run == [] then s else After(Next(s, run[0], ttl), run[1..], ttl)
  }
}
