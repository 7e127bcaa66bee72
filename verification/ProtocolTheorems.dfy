/** The results about every run of the protocol, for any number of clients and
    any interleaving of their commands. */
module ProtocolTheorems {
  import opened Domain
  import opened Keyspace
  import opened Tokens
  import opened Protocol
  import opened ProtocolInvariant
  import opened ProtocolSteps
  import opened ProtocolWrites
  import opened ProtocolRuns

  ghost predicate Reachable(s: State, ttl: Lifetimes) {
    ttl.Valid() &&
    exists start: State, run: seq<Action> :: Initial(start) && CanRun(start, run, ttl) && After(start, run, ttl) == s
  }

  lemma ReachableInv(s: State, ttl: Lifetimes)
    requires Reachable(s, ttl)
    ensures Inv(s, ttl)
  {
    hide Inv;
    var start, run :| Initial(start) && CanRun(start, run, ttl) && After(start, run, ttl) == s;
    InitialInv(start, ttl);
    RunKeeps(start, run, ttl);
  }

  lemma ReachableStep(s: State, a: Action, ttl: Lifetimes)
    requires Reachable(s, ttl) && Enabled(s, a)
    ensures Reachable(Next(s, a, ttl), ttl)
  {
    hide Initial, CanRun, After, Enabled, Next;
    var start, run :| Initial(start) && CanRun(start, run, ttl) && After(start, run, ttl) == s;
    RunsCompose(start, run, a, ttl);
  }

  /** ValidateToken, run without interruption in this state, accepts the token. */
  predicate Accepted(core: Core, token: Claims) {
    && token in core.signed
    && Parses(token, core.now)
    && var found := Find(core.store, core.now, token.sessionId);
       found.Some? && core.now <= found.value.expiresAt && Fits(token, found.value)
  }

  // ---- how one step changes the shared state ----

  lemma LoginEvolves(core: Core, c: nat, id: string, next: AuthSession, ttl: Lifetimes)
    requires Fresh(core, [id, next.accessId, next.refreshId])
    ensures Evolves(core, Mint(Named(core, id, c), c, next, ttl), c)
  {
    var ids := [id, next.accessId, next.refreshId];
    assert ids[0] == id && ids[1] == next.accessId && ids[2] == next.refreshId;
    var after := Mint(Named(core, id, c), c, next, ttl);
    forall x ensures Untouched(core, after, x) {}
  }

  lemma CommandEvolves(s: State, c: nat, pc: Pc, expiryAborts: bool, ttl: Lifetimes)
    requires Inv(s, ttl) && PcOk(s.core, c, pc, ttl)
    ensures Evolves(s.core, CommandStep(s, c, pc, expiryAborts, ttl).core, c)
  {
    hide CoreOk, ClientsOk, EndingsOk;
    EvolvesSelf(s.core, c);
    match pc
    case Creating(next) =>
      CreatingContinues(s.core, c, next, ttl);
      PublishKeeps(s.core, c, next, ttl);
    case Executing(job, attempt, seen) =>
      if !ExecFails(s.core, job.sessionId, seen, expiryAborts) {
        ExecContinues(s.core, c, job, attempt, seen, ttl);
        PublishKeeps(s.core, c, job.next, ttl);
      }
    case DeleteExecuting(id, session) => KillKeeps(s.core, id, session, c, ttl);
    case Listing(_) => ListKeeps(s.core, c, ttl);
    case Erasing(userId, ids, listed) => KillAllKeeps(s.core, userId, ids, listed, c, ttl);
    case _ =>
  }

  lemma LookupEvolves(
    s: State, c: nat, pc: Pc, found: Outcome<User>, roles: seq<string>, accessId: string, refreshId: string,
    ttl: Lifetimes)
    requires pc.Looking? && Fresh(s.core, [accessId, refreshId])
    ensures Evolves(s.core, LookupStep(s, c, pc, found, roles, accessId, refreshId, ttl).core, c)
  {
    EvolvesSelf(s.core, c);
    if found.Ok? && found.value.status == Active {
      var next := MintSession(
        found.value, roles, pc.session.id, pc.session.createdAt, s.core.now, accessId, refreshId, ttl);
      var ids := [accessId, refreshId];
      assert ids[0] == accessId && ids[1] == refreshId;
      MintEvolves(s.core, c, next, ttl);
    }
  }

  lemma QuietEvolves(s: State, a: Action, c: nat, ttl: Lifetimes)
    requires Inv(s, ttl) && Enabled(s, a)
    requires a.Tick? || a.Expire? || a.ExpireIndex?
    ensures Evolves(s.core, Next(s, a, ttl).core, c)
  {
    hide ClientsOk, EndingsOk, Evolves, Shrinks, HistoryOk, OriginsOk, CellsOk, TouchedOk, SignedOk, MembersOk,
      CoverageOk;
    match a
    case Tick(d) =>
      TickShrinks(s.core, d, ttl);
      ShrinkEvolves(s.core, s.core.(now := s.core.now + d), c);
    case Expire(id) =>
      ReapShrinks(s.core, id, ttl);
      ShrinkEvolves(s.core, Reap(s.core, id), c);
    case ExpireIndex(u) =>
      ExpireIndexShrinks(s.core, u, ttl);
      ShrinkEvolves(s.core, WithoutIndex(s.core, u), c);
  }

  lemma StepEvolves(s: State, a: Action, ttl: Lifetimes) returns (c: nat)
    requires Inv(s, ttl) && Enabled(s, a)
    ensures Evolves(s.core, Next(s, a, ttl).core, c)
  {
    hide CoreOk, EndingsOk, Evolves;
    c := 0;
    EvolvesSelf(s.core, 0);
    match a
    case Login(client, user, roles, id, accessId, refreshId) =>
      c := client;
      LoginEvolves(s.core, c, id, MintSession(user, roles, id, s.core.now, s.core.now, accessId, refreshId, ttl), ttl);
    case Lookup(client, found, roles, accessId, refreshId) =>
      c := client;
      LookupEvolves(s, c, PcOf(s, c), found, roles, accessId, refreshId, ttl);
    case Command(client, expiryAborts) =>
      c := client;
      CommandEvolves(s, c, PcOf(s, c), expiryAborts, ttl);
    case Tick(_) => QuietEvolves(s, a, 0, ttl);
    case Expire(_) => QuietEvolves(s, a, 0, ttl);
    case ExpireIndex(_) => QuietEvolves(s, a, 0, ttl);
    case _ =>
  }

  // ---- single use ----

  /** Over any run, no two RefreshToken calls on one token return a pair. */
  lemma RefreshSingleUse(s: State, j: nat, k: nat, ttl: Lifetimes)
    requires Reachable(s, ttl)
    requires j < k < |s.ended| && s.ended[j].result.Ok? && s.ended[k].result.Ok?
    ensures s.ended[j].token != s.ended[k].token
    ensures s.ended[j].result.value != s.ended[k].result.value
  {
    hide CoreOk, ClientsOk;
    ReachableInv(s, ttl);
    assert Won(s.core, s.ended[j]) && Won(s.core, s.ended[k]);
    WinsDiffer(s.core, s.ended[j], s.ended[k], ttl);
  }

  lemma WinsDiffer(core: Core, a: Ending, b: Ending, ttl: Lifetimes)
    requires CoreOk(core, ttl) && Won(core, a) && Won(core, b)
    requires a.result.Ok? && b.result.Ok? && a.token.id != b.token.id
    ensures a.result.value != b.result.value
  {
    var i, j := core.origins[a.token.id].generation, core.origins[b.token.id].generation;
    var id := a.token.sessionId;
    assert core.history[id][i].refreshId == a.token.id;
    assert core.origins[TokenId(a.result.value, Refresh)] == Stored(id, i + 1, Refresh);
    assert core.origins[TokenId(b.result.value, Refresh)] == Stored(b.token.sessionId, j + 1, Refresh);
  }

  // ---- one access and one refresh token ----

  /** In every reachable state at most one token of each type is accepted per session. */
  lemma OneOfEachType(s: State, t: Claims, u: Claims, ttl: Lifetimes)
    requires Reachable(s, ttl)
    requires Accepted(s.core, t) && Accepted(s.core, u)
    requires t.sessionId == u.sessionId && t.kind == u.kind
    ensures t == u
  {
    hide Reachable, ClientsOk, EndingsOk;
    ReachableInv(s, ttl);
    assert t.id == u.id;
  }

  /** An accepted token is, field by field, the token minted at some instant `mint`;
      a refresh token is accepted up to mint + refresh lifetime and no longer, an access
      token besides only while it is within its own lifetime plus the leeway. */
  lemma AcceptanceWindow(s: State, t: Claims, ttl: Lifetimes) returns (session: AuthSession, mint: int)
    requires Reachable(s, ttl) && Accepted(s.core, t)
    ensures Find(s.core.store, s.core.now, t.sessionId) == Some(session)
    ensures t == MintToken(session, t.kind, mint, ttl) && session.expiresAt == mint + ttl.refresh
    ensures mint <= s.core.now <= mint + ttl.refresh
    ensures t.kind == Access ==> s.core.now < mint + ttl.access + LEEWAY
  {
    hide Reachable, ClientsOk, EndingsOk, Lineage, MembersOk, CoverageOk, TouchedOk;
    ReachableInv(s, ttl);
    session := Find(s.core.store, s.core.now, t.sessionId).value;
    mint := session.expiresAt - ttl.refresh;
    FitsIsCurrent(s.core, t, ttl);
    OwnerOfCell(s.core, t.sessionId, ttl);
  }

  // ---- no resurrection ----

  lemma {:induction false} KilledStays(s: State, run: seq<Action>, id: string, ttl: Lifetimes)
    requires Inv(s, ttl) && CanRun(s, run, ttl) && id in s.core.killed
    ensures id in After(s, run, ttl).core.killed
    ensures id !in After(s, run, ttl).core.store.sessions
    decreases |run|
  {
    if run != [] {
      var c := StepEvolves(s, run[0], ttl);
      StepKeeps(s, run[0], ttl);
      assert s.core.killed <= Next(s, run[0], ttl).core.killed;
      KilledStays(Next(s, run[0], ttl), run[1..], id, ttl);
    }
  }

  /** Once the DEL of a Logout has run, no later state shows the session, whatever
      rotations were in flight. */
  lemma LogoutIsFinal(s: State, c: nat, id: string, session: AuthSession, run: seq<Action>, t: Claims, ttl: Lifetimes)
    requires Reachable(s, ttl) && PcOf(s, c) == DeleteExecuting(id, session)
    requires CanRun(s, [Command(c, false)] + run, ttl)
    requires t.sessionId == id
    ensures !Accepted(After(s, [Command(c, false)] + run, ttl).core, t)
  {
    hide Reachable, Inv;
    ReachableInv(s, ttl);
    var whole := [Command(c, false)] + run;
    assert whole[0] == Command(c, false) && whole[1..] == run;
    StepKeeps(s, whole[0], ttl);
    KilledStays(Next(s, whole[0], ttl), run, id, ttl);
  }

  /** Every id that SMEMBERS saw is dead for good after the DEL of DeleteAllForUser,
      even if it was rotated in between. */
  lemma SweepIsFinal(
    s: State, c: nat, u: string, ids: set<string>, at: nat, run: seq<Action>, t: Claims, ttl: Lifetimes)
    requires Reachable(s, ttl) && PcOf(s, c) == Erasing(u, ids, at)
    requires CanRun(s, [Command(c, false)] + run, ttl)
    requires t.sessionId in ids
    ensures !Accepted(After(s, [Command(c, false)] + run, ttl).core, t)
  {
    hide Reachable, Inv;
    ReachableInv(s, ttl);
    var whole := [Command(c, false)] + run;
    assert whole[0] == Command(c, false) && whole[1..] == run;
    StepKeeps(s, whole[0], ttl);
    KilledStays(Next(s, whole[0], ttl), run, t.sessionId, ttl);
  }

  // ---- the life of a token id ----

  datatype Phase = Unknown | Waiting | Shown | Retired {
    function Rank(): nat {
      match this
      case Unknown => 0
      case Waiting => 1
      case Shown => 2
      case Retired => 3
    }
  }

  /** Where a token id stands: minted but not stored, in the session that Redis
      shows, or replaced. */
  function PhaseOf(core: Core, id: string): Phase {
    if id !in core.origins || core.origins[id].SessionName? then Unknown
    else if core.origins[id].Pending? then Waiting
    else
      var o := core.origins[id];
      var found := Find(core.store, core.now, o.sessionId);
      if found.Some? && TokenId(found.value, o.kind) == id then Shown else Retired
  }

  /** An id shown by the session is the id of its latest generation. */
  lemma ShownIsLast(core: Core, id: string, ttl: Lifetimes)
    requires CoreOk(core, ttl) && PhaseOf(core, id) == Shown
    ensures core.origins[id].sessionId in core.history
    ensures core.origins[id].generation + 1 == |core.history[core.origins[id].sessionId]|
  {
    var o := core.origins[id];
    var g := |core.history[o.sessionId]| - 1;
    assert TokenId(core.history[o.sessionId][g], o.kind) == id;
  }

  lemma RetiredStays(core: Core, after: Core, c: nat, id: string, ttl: Lifetimes)
    requires OriginsOk(core) && OriginsOk(after) && CellsOk(after, ttl) && Evolves(core, after, c)
    requires PhaseOf(core, id) == Retired
    ensures PhaseOf(after, id) == Retired
  {
    assert after.origins[id] == core.origins[id];
    var o := core.origins[id];
    assert HoldsId(core, o, id);
    assert core.history[o.sessionId] <= after.history[o.sessionId];
    assert Untouched(core, after, o.sessionId) || Changed(core, after, o.sessionId);
    if PhaseOf(after, id) == Shown {
      var last := |after.history[o.sessionId]| - 1;
      assert TokenId(after.history[o.sessionId][last], o.kind) == id;
      var r := core.history[o.sessionId][o.generation].refreshId;
      assert TokenId(core.history[o.sessionId][o.generation], Refresh) == r;
      assert WasCurrent(core, o.sessionId, r) && Current(after, o.sessionId, r);
    }
  }

  lemma PhaseAdvances(core: Core, after: Core, c: nat, id: string, ttl: Lifetimes)
    requires CoreOk(core, ttl) && CoreOk(after, ttl) && Evolves(core, after, c)
    ensures PhaseOf(core, id).Rank() <= PhaseOf(after, id).Rank()
  {
    hide SignedOk, MembersOk, CoverageOk, HistoryOk, TouchedOk;
    if PhaseOf(core, id) == Retired {
      RetiredStays(core, after, c, id, ttl);
    }
  }

  /** Over any run an identifier goes from minted to shown to retired and never back. */
  lemma {:induction false} PhasesNeverGoBack(s: State, run: seq<Action>, id: string, ttl: Lifetimes)
    requires Inv(s, ttl) && CanRun(s, run, ttl)
    ensures PhaseOf(s.core, id).Rank() <= PhaseOf(After(s, run, ttl).core, id).Rank()
    decreases |run|
  {
    hide CoreOk, ClientsOk, EndingsOk, Evolves;
    if run != [] {
      var c := StepEvolves(s, run[0], ttl);
      StepKeeps(s, run[0], ttl);
      PhaseAdvances(s.core, Next(s, run[0], ttl).core, c, id, ttl);
      PhasesNeverGoBack(Next(s, run[0], ttl), run[1..], id, ttl);
    }
  }

  /** Only a shown id is accepted; so a token that a later generation of its session
      replaced, or whose session is gone, is refused in this and every later state. */
  lemma OldPairsStayRefused(s: State, run: seq<Action>, t: Claims, ttl: Lifetimes)
    requires Reachable(s, ttl) && CanRun(s, run, ttl)
    requires t.id in s.core.origins && s.core.origins[t.id].Stored?
    requires s.core.origins[t.id].sessionId in s.core.history
    requires s.core.origins[t.id].generation + 1 < |s.core.history[s.core.origins[t.id].sessionId]|
             || Find(s.core.store, s.core.now, s.core.origins[t.id].sessionId).None?
    ensures !Accepted(s.core, t)
    ensures !Accepted(After(s, run, ttl).core, t)
  {
    hide Reachable, ClientsOk, EndingsOk, CoreOk;
    ReachableInv(s, ttl);
    if PhaseOf(s.core, t.id) == Shown {
      ShownIsLast(s.core, t.id, ttl);
    }
    PhasesNeverGoBack(s, run, t.id, ttl);
    RunKeeps(s, run, ttl);
    if Accepted(s.core, t) {
      AcceptedIsShown(s.core, t, ttl);
    }
    if Accepted(After(s, run, ttl).core, t) {
      AcceptedIsShown(After(s, run, ttl).core, t, ttl);
    }
  }

  lemma AcceptedIsShown(core: Core, t: Claims, ttl: Lifetimes)
    requires CoreOk(core, ttl) && Accepted(core, t)
    ensures PhaseOf(core, t.id) == Shown
  {
    FitsIsCurrent(core, t, ttl);
  }

  // ---- lineage ----

  lemma {:induction false} HistoryGrows(s: State, run: seq<Action>, id: string, ttl: Lifetimes)
    requires Inv(s, ttl) && CanRun(s, run, ttl) && id in s.core.history
    ensures id in After(s, run, ttl).core.history
    ensures s.core.history[id] <= After(s, run, ttl).core.history[id]
    decreases |run|
  {
    hide CoreOk, ClientsOk, EndingsOk;
    if run != [] {
      var c := StepEvolves(s, run[0], ttl);
      StepKeeps(s, run[0], ttl);
      HistoryGrows(Next(s, run[0], ttl), run[1..], id, ttl);
    }
  }

  /** Across any number of refreshes a session keeps its id, its user and its creation
      time, its expiry never moves back, and Redis keeps it at least that long. */
  lemma SessionLineage(s: State, run: seq<Action>, id: string, ttl: Lifetimes)
    requires Reachable(s, ttl) && CanRun(s, run, ttl)
    requires id in s.core.store.sessions && id in After(s, run, ttl).core.store.sessions
    ensures var before, after := s.core.store.sessions[id], After(s, run, ttl).core.store.sessions[id];
      && before.value.id == after.value.id == id
      && before.value.userId == after.value.userId
      && before.value.createdAt == after.value.createdAt
      && before.value.expiresAt <= after.value.expiresAt <= after.deadline
  {
    hide Reachable, ClientsOk, EndingsOk, CoreOk;
    ReachableInv(s, ttl);
    RunKeeps(s, run, ttl);
    CellOfHistory(s.core, id, ttl);
    CellOfHistory(After(s, run, ttl).core, id, ttl);
    HistoryGrows(s, run, id, ttl);
  }

  lemma CellOfHistory(core: Core, id: string, ttl: Lifetimes)
    requires CoreOk(core, ttl) && id in core.store.sessions
    ensures id in core.history && Lineage(id, core.history[id])
    ensures core.store.sessions[id].value == Last(core.history[id])
    ensures core.store.sessions[id].value.expiresAt <= core.store.sessions[id].deadline
  {
  }

  // ---- the index ----

  /** A live session is missing from its user's index exactly when its last SADD fell
      between the SMEMBERS and the DEL of a DeleteAllForUser of the same user that had
      not seen it. */
  lemma MissingFromIndex(s: State, id: string, ttl: Lifetimes)
    requires Reachable(s, ttl)
    requires Find(s.core.store, s.core.now, id).Some?
    ensures id !in Members(s.core.store, s.core.now, s.core.store.sessions[id].value.userId) <==> Swept(s.core, id)
  {
    hide Reachable, ClientsOk, EndingsOk;
    ReachableInv(s, ttl);
    var core := s.core;
    OwnerOfCell(core, id, ttl);
    var u := Owner(core, id);
    assert Covered(core, id) || Swept(core, id);
  }

  /** The next rotation puts a missing session back into the index. */
  lemma RotationRelists(s: State, c: nat, job: Job, attempt: nat, seen: nat, ttl: Lifetimes)
    requires Reachable(s, ttl) && PcOf(s, c) == Executing(job, attempt, seen)
    requires !ExecFails(s.core, job.sessionId, seen, false)
    ensures var after := Next(s, Command(c, false), ttl).core;
      && job.sessionId in Members(after.store, after.now, Owner(after, job.sessionId))
      && !Swept(after, job.sessionId)
  {
    hide Reachable, Inv, Swept, ExecFails;
    ReachableInv(s, ttl);
    ExecPublishes(s, c, job, attempt, seen, ttl);
    PublishedIsListed(Publish(s.core, job.next, ttl.refresh), s.core, job.next, ttl);
  }

  lemma ExecPublishes(s: State, c: nat, job: Job, attempt: nat, seen: nat, ttl: Lifetimes)
    requires Inv(s, ttl) && PcOf(s, c) == Executing(job, attempt, seen)
    requires !ExecFails(s.core, job.sessionId, seen, false)
    ensures Next(s, Command(c, false), ttl).core == Publish(s.core, job.next, ttl.refresh)
    ensures job.next.id == job.sessionId
    ensures CoreOk(Publish(s.core, job.next, ttl.refresh), ttl)
  {
    hide CoreOk, ClientsOk, EndingsOk;
    PcHolds(s, c, ttl);
    ExecContinues(s.core, c, job, attempt, seen, ttl);
    PublishKeeps(s.core, c, job.next, ttl);
  }

  lemma PublishedIsListed(after: Core, core: Core, next: AuthSession, ttl: Lifetimes)
    requires CoreOk(after, ttl) && after == Publish(core, next, ttl.refresh)
    ensures next.id in Members(after.store, after.now, Owner(after, next.id))
    ensures !Swept(after, next.id)
  {
    OwnerOfCell(after, next.id, ttl);
  }

  lemma PcHolds(s: State, c: nat, ttl: Lifetimes)
    requires Inv(s, ttl)
    ensures PcOk(s.core, c, PcOf(s, c), ttl)
  {
  }

  // ---- the retry loop ----

  /** A Rotate that loses a WATCH race ends with ErrInvalidToken at the GET of its
      second attempt: no second EXEC, no third attempt. */
  lemma SecondAttemptIsLast(s: State, c: nat, ttl: Lifetimes)
    requires Reachable(s, ttl)
    ensures var pc := PcOf(s, c);
      && (pc.Watching? || pc.Reading? ==> pc.attempt <= 1)
      && (pc.Executing? ==> pc.attempt == 0)
      && (pc.Reading? && pc.attempt == 1 ==> forall e ::
            Next(s, Command(c, e), ttl) == End(s, s.core, c, pc.job.token, Err(InvalidToken)))
  {
    hide Reachable, CoreOk, ClientsOk, EndingsOk;
    ReachableInv(s, ttl);
    PcHolds(s, c, ttl);
  }

  /** So the error after exhausted attempts is unreachable: a command that Redis
      answers never ends a refresh with anything but a pair or ErrInvalidToken. */
  lemma AttemptsNeverRunOut(s: State, c: nat, expiryAborts: bool, ttl: Lifetimes)
    requires Reachable(s, ttl) && Enabled(s, Command(c, expiryAborts))
    ensures var after := Next(s, Command(c, expiryAborts), ttl);
      && s.ended <= after.ended && |after.ended| <= |s.ended| + 1
      && (|after.ended| == |s.ended| + 1 ==>
          var result := after.ended[|s.ended|].result;
          result.Ok? || result == Err(InvalidToken))
  {
    hide Reachable, CoreOk, ClientsOk, EndingsOk;
    ReachableInv(s, ttl);
    PcHolds(s, c, ttl);
  }
}
