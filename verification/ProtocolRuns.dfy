/** Every enabled step keeps the protocol invariant, hence so does every run. */
module ProtocolRuns {
  import opened Domain
  import opened Keyspace
  import opened Tokens
  import opened Protocol
  import opened ProtocolInvariant
  import opened ProtocolSteps
  import opened ProtocolWrites

  lemma EvolvesSelf(core: Core, c: nat)
    ensures Evolves(core, core, c)
  {
    forall id ensures Untouched(core, core, id) {}
  }

  /** Client c moves while the core evolves. */
  lemma Advance(s: State, after: Core, c: nat, pc: Pc, ttl: Lifetimes)
    requires Inv(s, ttl)
    requires CoreOk(after, ttl) && Evolves(s.core, after, c) && PcOk(after, c, pc, ttl)
    ensures Inv(Goto(s, after, c, pc), ttl)
  {
    var t := Goto(s, after, c, pc);
    forall d | d in t.clients ensures PcOk(t.core, d, t.clients[d], ttl) {
      if d != c {
        ClientStays(s.core, after, c, d, s.clients[d], ttl);
      }
    }
    forall k | 0 <= k < |t.ended| ensures Won(t.core, t.ended[k]) {
      EndingStays(s.core, after, c, s.ended[k]);
    }
  }

  /** Nobody moves while the core evolves. */
  lemma Drift(s: State, after: Core, ttl: Lifetimes)
    requires Inv(s, ttl)
    requires CoreOk(after, ttl) && forall c :: Evolves(s.core, after, c)
    ensures Inv(s.(core := after), ttl)
  {
    var t := s.(core := after);
    forall d | d in t.clients ensures PcOk(t.core, d, t.clients[d], ttl) {
      ClientStays(s.core, after, d + 1, d, s.clients[d], ttl);
    }
    forall k | 0 <= k < |t.ended| ensures Won(t.core, t.ended[k]) {
      EndingStays(s.core, after, 0, s.ended[k]);
    }
  }

  lemma Move(s: State, c: nat, pc: Pc, ttl: Lifetimes)
    requires Inv(s, ttl) && PcOk(s.core, c, pc, ttl)
    ensures Inv(Goto(s, s.core, c, pc), ttl)
  {
    EvolvesSelf(s.core, c);
    Advance(s, s.core, c, pc, ttl);
  }

  /** A refresh ends without a new pair. */
  lemma Lose(s: State, c: nat, token: Claims, error: Error, ttl: Lifetimes)
    requires Inv(s, ttl)
    ensures Inv(End(s, s.core, c, token, Err(error)), ttl)
  {
    hide Inv, Won;
    assert PcOk(s.core, c, Idle, ttl);
    Move(s, c, Idle, ttl);
    Record(Goto(s, s.core, c, Idle), Ending(token, Err(error)), ttl);
  }

  lemma RejectKeeps(s: State, c: nat, goal: Goal, token: Claims, ttl: Lifetimes)
    requires Inv(s, ttl)
    ensures Inv(Reject(s, c, goal, token), ttl)
  {
    hide CoreOk, EndingsOk;
    Lose(s, c, token, InvalidToken, ttl);
    Move(s, c, Idle, ttl);
  }

  // ---- what a token that fits its session tells ----

  /** A token that fits the stored session is a token of its latest generation. */
  lemma FitsIsCurrent(core: Core, token: Claims, ttl: Lifetimes)
    requires CoreOk(core, ttl)
    requires token.sessionId in core.store.sessions
    requires Fits(token, core.store.sessions[token.sessionId].value)
    ensures token.id in core.origins
    ensures core.origins[token.id] == Stored(token.sessionId, |core.history[token.sessionId]| - 1, token.kind)
  {
    var id := token.sessionId;
    var g := |core.history[id]| - 1;
    assert core.history[id][g] == core.store.sessions[id].value;
    assert TokenId(core.history[id][g], token.kind) == token.id;
  }

  lemma FetchExpired(s: State, c: nat, goal: Goal, token: Claims, ttl: Lifetimes)
    requires Inv(s, ttl) && token.sessionId in s.core.store.sessions
    ensures Inv(Reject(s, c, goal, token).(
                  clients := s.clients[c := DeleteReading(s.core.store.sessions[token.sessionId].value.id)]), ttl)
  {
    hide EndingsOk, CoreOk;
    var id := s.core.store.sessions[token.sessionId].value.id;
    RejectKeeps(s, c, goal, token, ttl);
    var t := Reject(s, c, goal, token);
    OwnerOfCell(s.core, token.sessionId, ttl);
    Move(t, c, DeleteReading(id), ttl);
    assert t.(clients := s.clients[c := DeleteReading(id)]) == Goto(t, t.core, c, DeleteReading(id));
  }

  lemma FetchFits(core: Core, c: nat, goal: Goal, token: Claims, ttl: Lifetimes)
    requires CoreOk(core, ttl) && PcOk(core, c, Fetching(goal, token), ttl)
    requires token.sessionId in core.store.sessions
    requires Fits(token, core.store.sessions[token.sessionId].value)
    ensures goal == Renew ==> PcOk(core, c, Looking(token, core.store.sessions[token.sessionId].value), ttl)
    ensures token.sessionId in core.history
  {
    FitsIsCurrent(core, token, ttl);
    OwnerOfCell(core, token.sessionId, ttl);
  }

  lemma FetchKeeps(s: State, c: nat, goal: Goal, token: Claims, ttl: Lifetimes)
    requires Inv(s, ttl) && PcOk(s.core, c, Fetching(goal, token), ttl)
    ensures Inv(FetchStep(s, c, goal, token), ttl)
  {
    hide CoreOk, EndingsOk;
    var found := Find(s.core.store, s.core.now, token.sessionId);
    if found.None? {
      RejectKeeps(s, c, goal, token, ttl);
    } else if s.core.now > found.value.expiresAt {
      FetchExpired(s, c, goal, token, ttl);
    } else if !Fits(token, found.value) {
      RejectKeeps(s, c, goal, token, ttl);
    } else {
      FetchFits(s.core, c, goal, token, ttl);
      match goal
      case Check => Move(s, c, Idle, ttl);
      case Renew => Move(s, c, Looking(token, found.value), ttl);
      case Leave => Move(s, c, DeleteReading(token.sessionId), ttl);
      case LeaveAll => Move(s, c, Listing(token.subject), ttl);
    }
  }

  // ---- minting ----

  lemma ClockStarted(core: Core, ttl: Lifetimes)
    requires CoreOk(core, ttl)
    ensures core.now > ZERO_TIME
  {
  }

  lemma LoginCore(core: Core, c: nat, id: string, next: AuthSession, ttl: Lifetimes)
    requires CoreOk(core, ttl) && Fresh(core, [id, next.accessId, next.refreshId])
    requires next.id == id && next.expiresAt == core.now + ttl.refresh && next.createdAt != ZERO_TIME
    ensures CoreOk(Named(core, id, c), ttl) && Evolves(core, Named(core, id, c), c)
    ensures CoreOk(Mint(Named(core, id, c), c, next, ttl), ttl)
    ensures Evolves(Named(core, id, c), Mint(Named(core, id, c), c, next, ttl), c)
    ensures PcOk(Mint(Named(core, id, c), c, next, ttl), c, Creating(next), ttl)
  {
    var ids := [id, next.accessId, next.refreshId];
    assert ids[0] == id && ids[1] == next.accessId && ids[2] == next.refreshId;
    NameKeeps(core, id, c, ttl);
    MintKeeps(Named(core, id, c), c, next, ttl);
    assert id !in core.history;
  }

  lemma LoginKeeps(s: State, a: Action, ttl: Lifetimes)
    requires Inv(s, ttl) && a.Login? && Enabled(s, a)
    ensures Inv(Next(s, a, ttl), ttl)
  {
    hide CoreOk, EndingsOk, ClientsOk, Evolves, Next;
    var c := a.client;
    var next := MintSession(a.user, a.roles, a.sessionId, s.core.now, s.core.now, a.accessId, a.refreshId, ttl);
    ClockStarted(s.core, ttl);
    LoginCore(s.core, c, a.sessionId, next, ttl);
    var named := Named(s.core, a.sessionId, c);
    Advance(s, named, c, Idle, ttl);
    var t := Goto(s, named, c, Idle);
    var core := Mint(named, c, next, ttl);
    Advance(t, core, c, Idle, ttl);
    Advance(t, core, c, Creating(next), ttl);
    LoginGoto(s, a, ttl);
  }

  lemma LoginGoto(s: State, a: Action, ttl: Lifetimes)
    requires a.Login?
    ensures var next := MintSession(a.user, a.roles, a.sessionId, s.core.now, s.core.now, a.accessId, a.refreshId, ttl);
      var named := Named(s.core, a.sessionId, a.client);
      Next(s, a, ttl) == Goto(Goto(s, named, a.client, Idle), Mint(named, a.client, next, ttl), a.client,
                              if Storable(next, ttl.refresh) then Creating(next) else Idle)
  {
  }

  lemma LookupKeeps(
    s: State, c: nat, pc: Pc, found: Outcome<User>, roles: seq<string>, accessId: string, refreshId: string,
    ttl: Lifetimes)
    requires Inv(s, ttl) && pc.Looking? && PcOk(s.core, c, pc, ttl) && Fresh(s.core, [accessId, refreshId])
    ensures Inv(LookupStep(s, c, pc, found, roles, accessId, refreshId, ttl), ttl)
  {
    hide CoreOk, EndingsOk, ClientsOk, Evolves, JobOk, WasCurrent;
    if found.Err? {
      Lose(s, c, pc.token, InvalidToken, ttl);
    } else if found.value.status != Active {
      Lose(s, c, pc.token, Forbidden, ttl);
    } else {
      var next := MintSession(
        found.value, roles, pc.session.id, pc.session.createdAt, s.core.now, accessId, refreshId, ttl);
      LookupJob(s.core, c, pc, next, ttl);
      var core := Mint(s.core, c, next, ttl);
      if Storable(next, ttl.refresh) {
        Advance(s, core, c, Watching(Job(pc.session.id, pc.token, next), 0), ttl);
      } else {
        Advance(s, core, c, Idle, ttl);
        var t := Goto(s, core, c, Idle);
        Lose(t, c, pc.token, InvalidInput, ttl);
        assert End(s, core, c, pc.token, Err(InvalidInput)) == End(t, core, c, pc.token, Err(InvalidInput));
      }
    }
  }

  lemma LookupJob(core: Core, c: nat, pc: Pc, next: AuthSession, ttl: Lifetimes)
    requires CoreOk(core, ttl) && pc.Looking? && PcOk(core, c, pc, ttl)
    requires Fresh(core, [next.accessId, next.refreshId])
    requires next.id == pc.session.id && next.expiresAt == core.now + ttl.refresh
    requires next.createdAt == (if pc.session.createdAt == ZERO_TIME then core.now else pc.session.createdAt)
    ensures CoreOk(Mint(core, c, next, ttl), ttl) && Evolves(core, Mint(core, c, next, ttl), c)
    ensures JobOk(Mint(core, c, next, ttl), c, Job(pc.session.id, pc.token, next), ttl)
  {
    var ids := [next.accessId, next.refreshId];
    assert ids[0] == next.accessId && ids[1] == next.refreshId;
    assert Lineage(pc.session.id, core.history[pc.session.id]);
    MintKeeps(core, c, next, ttl);
    WasCurrentStays(core, Mint(core, c, next, ttl), c, pc.session.id, pc.token.id);
  }

  // ---- the EXEC of a rotation ----

  /** When the watched key has not changed, the new session continues the lineage. */
  lemma ExecContinues(core: Core, c: nat, job: Job, attempt: nat, seen: nat, ttl: Lifetimes)
    requires CoreOk(core, ttl) && PcOk(core, c, Executing(job, attempt, seen), ttl)
    requires Version(core, job.sessionId) == seen
    ensures Continues(core, c, job.next)
    ensures core.origins[job.token.id] == Stored(job.sessionId, |core.history[job.sessionId]| - 1, Refresh)
  {
    var id := job.sessionId;
    var g := |core.history[id]| - 1;
    assert Lineage(id, core.history[id]);
    assert core.history[id][g] == core.store.sessions[id].value;
    assert TokenId(core.history[id][g], Refresh) == job.token.id;
  }

  /** No earlier refresh won with the token whose generation is still the latest. */
  lemma NotWonYet(s: State, token: Claims, ttl: Lifetimes)
    requires Inv(s, ttl)
    requires token.id in s.core.origins && token.sessionId in s.core.history && s.core.history[token.sessionId] != []
    requires s.core.origins[token.id] == Stored(token.sessionId, |s.core.history[token.sessionId]| - 1, Refresh)
    ensures forall k :: 0 <= k < |s.ended| && s.ended[k].result.Ok? ==> s.ended[k].token.id != token.id
  {
    forall k | 0 <= k < |s.ended| && s.ended[k].result.Ok? ensures s.ended[k].token.id != token.id {
      assert Won(s.core, s.ended[k]);
    }
  }

  lemma ExecKeeps(s: State, c: nat, job: Job, attempt: nat, seen: nat, ttl: Lifetimes)
    requires Inv(s, ttl) && PcOk(s.core, c, Executing(job, attempt, seen), ttl)
    requires Version(s.core, job.sessionId) == seen
    ensures Inv(End(s, Publish(s.core, job.next, ttl.refresh), c, job.token, Ok(job.next)), ttl)
  {
    hide CoreOk, ClientsOk, EndingsOk, Continues, Won;
    var after := Publish(s.core, job.next, ttl.refresh);
    ExecContinues(s.core, c, job, attempt, seen, ttl);
    PublishKeeps(s.core, c, job.next, ttl);
    Advance(s, after, c, Idle, ttl);
    NotWonYet(s, job.token, ttl);
    ExecWins(s.core, c, job, attempt, seen, ttl);
    Record(Goto(s, after, c, Idle), Ending(job.token, Ok(job.next)), ttl);
  }

  lemma Record(s: State, ending: Ending, ttl: Lifetimes)
    requires Inv(s, ttl)
    requires ending.result.Ok? ==>
      Won(s.core, ending) && forall k :: 0 <= k < |s.ended| && s.ended[k].result.Ok? ==>
        s.ended[k].token.id != ending.token.id
    ensures Inv(s.(ended := s.ended + [ending]), ttl)
  {
    hide CoreOk, ClientsOk, WasCurrent;
    assert ClientsOk(s.(ended := s.ended + [ending]), ttl) by {
      SameClients(s, s.(ended := s.ended + [ending]), ttl);
    }
  }

  lemma SameClients(s: State, t: State, ttl: Lifetimes)
    requires ClientsOk(s, ttl) && t.core == s.core && t.clients == s.clients
    ensures ClientsOk(t, ttl)
  {
    hide PcOk;
  }

  lemma ExecWins(core: Core, c: nat, job: Job, attempt: nat, seen: nat, ttl: Lifetimes)
    requires CoreOk(core, ttl) && PcOk(core, c, Executing(job, attempt, seen), ttl)
    requires Version(core, job.sessionId) == seen
    ensures Won(Publish(core, job.next, ttl.refresh), Ending(job.token, Ok(job.next)))
  {
    ExecContinues(core, c, job, attempt, seen, ttl);
    PublishKeeps(core, c, job.next, ttl);
    WasCurrentStays(core, Publish(core, job.next, ttl.refresh), c, job.sessionId, job.token.id);
  }

  lemma ExecutingKeeps(s: State, c: nat, job: Job, attempt: nat, seen: nat, expiryAborts: bool, ttl: Lifetimes)
    requires Inv(s, ttl) && PcOk(s.core, c, Executing(job, attempt, seen), ttl)
    ensures Inv(CommandStep(s, c, Executing(job, attempt, seen), expiryAborts, ttl), ttl)
  {
    hide CoreOk, EndingsOk;
    if !ExecFails(s.core, job.sessionId, seen, expiryAborts) {
      ExecKeeps(s, c, job, attempt, seen, ttl);
    } else {
      assert !JobCurrent(s.core, job);
      Move(s, c, Watching(job, 1), ttl);
    }
  }

  lemma ReadingKeeps(s: State, c: nat, job: Job, attempt: nat, seen: nat, expiryAborts: bool, ttl: Lifetimes)
    requires Inv(s, ttl) && PcOk(s.core, c, Reading(job, attempt, seen), ttl)
    ensures Inv(CommandStep(s, c, Reading(job, attempt, seen), expiryAborts, ttl), ttl)
  {
    hide CoreOk, EndingsOk;
    var found := Find(s.core.store, s.core.now, job.sessionId);
    if found.None? || found.value.refreshId != job.token.id || found.value.userId != job.next.userId {
      Lose(s, c, job.token, InvalidToken, ttl);
    } else {
      assert JobCurrent(s.core, job);
      Move(s, c, Executing(job, attempt, seen), ttl);
    }
  }

  lemma SnapshotTaken(core: Core, userId: string, ttl: Lifetimes)
    requires CoreOk(core, ttl)
    ensures SnapshotOk(
              core.(stamp := core.stamp + 1), userId, Members(core.store, core.now, userId), core.stamp)
  {
    var after := core.(stamp := core.stamp + 1);
    var ids := Members(core.store, core.now, userId);
    forall id | id in after.store.sessions && Live(after.store.sessions[id], after.now) && Owner(after, id) == userId
      ensures id in ids || Swept(after, id)
    {
      OwnerOfCell(core, id, ttl);
      if !Covered(core, id) {
        var k :| 0 <= k < |core.sweeps| && Missed(core.sweeps[k], Owner(core, id), id, Added(core, id));
        assert Missed(after.sweeps[k], Owner(after, id), id, Added(after, id));
      }
    }
  }

  lemma ListingKeeps(s: State, c: nat, userId: string, expiryAborts: bool, ttl: Lifetimes)
    requires Inv(s, ttl)
    ensures Inv(CommandStep(s, c, Listing(userId), expiryAborts, ttl), ttl)
  {
    hide CoreOk, EndingsOk;
    var after := s.core.(stamp := s.core.stamp + 1);
    ListKeeps(s.core, c, ttl);
    SnapshotTaken(s.core, userId, ttl);
    Advance(s, after, c, Erasing(userId, Members(s.core.store, s.core.now, userId), s.core.stamp), ttl);
  }

  lemma OwnerOfCell(core: Core, id: string, ttl: Lifetimes)
    requires CoreOk(core, ttl) && id in core.store.sessions
    ensures core.store.sessions[id].value.userId == Owner(core, id)
    ensures core.store.sessions[id].value.id == id && id in core.history
  {
    assert Lineage(id, core.history[id]);
  }

  lemma CreatingContinues(core: Core, c: nat, next: AuthSession, ttl: Lifetimes)
    requires CoreOk(core, ttl) && PcOk(core, c, Creating(next), ttl)
    ensures Continues(core, c, next)
  {
  }

  lemma CommandKeeps(s: State, c: nat, pc: Pc, expiryAborts: bool, ttl: Lifetimes)
    requires Inv(s, ttl) && PcOk(s.core, c, pc, ttl)
    ensures Inv(CommandStep(s, c, pc, expiryAborts, ttl), ttl)
  {
    hide CoreOk, EndingsOk;
    match pc
    case Idle =>
    case Looking(_, _) =>
    case Creating(next) =>
      CreatingContinues(s.core, c, next, ttl);
      PublishKeeps(s.core, c, next, ttl);
      Advance(s, Publish(s.core, next, ttl.refresh), c, Idle, ttl);
    case Fetching(goal, token) => FetchKeeps(s, c, goal, token, ttl);
    case Watching(job, attempt) =>
      VersionBelowStamp(s.core, job.sessionId, ttl);
      Move(s, c, Reading(job, attempt, Version(s.core, job.sessionId)), ttl);
    case Reading(job, attempt, seen) => ReadingKeeps(s, c, job, attempt, seen, expiryAborts, ttl);
    case Executing(job, attempt, seen) => ExecutingKeeps(s, c, job, attempt, seen, expiryAborts, ttl);
    case DeleteReading(id) =>
      var found := Find(s.core.store, s.core.now, id);
      if found.Some? {
        OwnerOfCell(s.core, id, ttl);
      }
      Move(s, c, if found.None? then Idle else DeleteExecuting(id, found.value), ttl);
    case DeleteExecuting(id, session) =>
      KillKeeps(s.core, id, session, c, ttl);
      Advance(s, Kill(s.core, id, session), c, Idle, ttl);
    case Listing(userId) => ListingKeeps(s, c, userId, expiryAborts, ttl);
    case Erasing(userId, ids, listed) =>
      KillAllKeeps(s.core, userId, ids, listed, c, ttl);
      Advance(s, KillAll(s.core, userId, ids, listed), c, Idle, ttl);
  }

  lemma VersionBelowStamp(core: Core, id: string, ttl: Lifetimes)
    requires CoreOk(core, ttl)
    ensures Version(core, id) < core.stamp
  {
  }

  lemma FaultKeeps(s: State, c: nat, pc: Pc, ttl: Lifetimes)
    requires Inv(s, ttl)
    ensures Inv(FaultStep(s, c, pc), ttl)
  {
    hide CoreOk, EndingsOk;
    match pc
    case Fetching(goal, token) => RejectKeeps(s, c, goal, token, ttl);
    case Looking(token, _) => Lose(s, c, token, InvalidToken, ttl);
    case Watching(job, _) => Lose(s, c, job.token, Internal, ttl);
    case Reading(job, _, _) => Lose(s, c, job.token, Internal, ttl);
    case Executing(job, _, _) => Lose(s, c, job.token, Internal, ttl);
    case _ => Move(s, c, Idle, ttl);
  }

  lemma QuietKeeps(s: State, after: Core, ttl: Lifetimes)
    requires Inv(s, ttl) && Shrinks(s.core, after)
    ensures Inv(s.(core := after), ttl)
  {
    forall c: nat ensures CoreOk(after, ttl) && Evolves(s.core, after, c) { ShrinkKeeps(s.core, after, c, ttl); }
    ShrinkKeeps(s.core, after, 0, ttl);
    Drift(s, after, ttl);
  }

  lemma TickKeeps(s: State, d: nat, ttl: Lifetimes)
    requires Inv(s, ttl)
    ensures Inv(s.(core := s.core.(now := s.core.now + d)), ttl)
  {
    hide EndingsOk, ClientsOk;
    TickShrinks(s.core, d, ttl);
    QuietKeeps(s, s.core.(now := s.core.now + d), ttl);
  }

  lemma ExpireKeeps(s: State, id: string, ttl: Lifetimes)
    requires Inv(s, ttl)
    ensures Inv(s.(core := Reap(s.core, id)), ttl)
  {
    hide EndingsOk, ClientsOk;
    ReapShrinks(s.core, id, ttl);
    QuietKeeps(s, Reap(s.core, id), ttl);
  }

  lemma ExpireIndexKeeps(s: State, u: string, ttl: Lifetimes)
    requires Inv(s, ttl)
    requires u in s.core.store.index && !Live(s.core.store.index[u], s.core.now)
    ensures Inv(s.(core := WithoutIndex(s.core, u)), ttl)
  {
    hide EndingsOk, ClientsOk;
    ExpireIndexShrinks(s.core, u, ttl);
    QuietKeeps(s, WithoutIndex(s.core, u), ttl);
  }

  lemma PresentKeeps(s: State, c: nat, goal: Goal, token: Claims, ttl: Lifetimes)
    requires Inv(s, ttl) && token in s.core.signed
    ensures Inv(Next(s, Present(c, goal, token), ttl), ttl)
  {
    hide CoreOk, EndingsOk;
    RejectKeeps(s, c, goal, token, ttl);
    if goal == Renew ==> token.kind == Refresh {
      Move(s, c, Fetching(goal, token), ttl);
    }
  }

  /** The step theorem. */
  lemma StepKeeps(s: State, a: Action, ttl: Lifetimes)
    requires Inv(s, ttl) && Enabled(s, a)
    ensures Inv(Next(s, a, ttl), ttl)
  {
    hide CoreOk, EndingsOk;
    match a
    case Tick(d) => TickKeeps(s, d, ttl);
    case Expire(id) => ExpireKeeps(s, id, ttl);
    case ExpireIndex(u) => ExpireIndexKeeps(s, u, ttl);
    case Login(_, _, _, _, _, _) => LoginKeeps(s, a, ttl);
    case Present(c, goal, token) => PresentKeeps(s, c, goal, token, ttl);
    case Revoke(c, userId) => Move(s, c, if userId == "" then Idle else Listing(userId), ttl);
    case Lookup(c, found, roles, accessId, refreshId) =>
      LookupKeeps(s, c, PcOf(s, c), found, roles, accessId, refreshId, ttl);
    case Command(c, expiryAborts) => CommandKeeps(s, c, PcOf(s, c), expiryAborts, ttl);
    case Fault(c) => FaultKeeps(s, c, PcOf(s, c), ttl);
  }

  lemma InitialInv(s: State, ttl: Lifetimes)
    requires Initial(s) && ttl.Valid()
    ensures Inv(s, ttl)
  {
  }

  lemma {:induction false} RunKeeps(s: State, run: seq<Action>, ttl: Lifetimes)
    requires Inv(s, ttl) && CanRun(s, run, ttl)
    ensures Inv(After(s, run, ttl), ttl)
    decreases |run|
  {
    if run != [] {
      StepKeeps(s, run[0], ttl);
      RunKeeps(Next(s, run[0], ttl), run[1..], ttl);
    }
  }

  lemma {:induction false} RunsCompose(s: State, run: seq<Action>, a: Action, ttl: Lifetimes)
    requires CanRun(s, run, ttl) && Enabled(After(s, run, ttl), a)
    ensures CanRun(s, run + [a], ttl) && After(s, run + [a], ttl) == Next(After(s, run, ttl), a, ttl)
    decreases |run|
  {
    hide Enabled, Next;
    if run == [] {
      assert [a][1..] == [] && run + [a] == [a];
      assert CanRun(Next(s, a, ttl), [], ttl) && After(Next(s, a, ttl), [], ttl) == Next(s, a, ttl);
    } else {
      RunsCompose(Next(s, run[0], ttl), run[1..], a, ttl);
      assert (run + [a])[1..] == run[1..] + [a];
    }
  }
}
