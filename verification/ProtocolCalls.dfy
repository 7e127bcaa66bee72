/** Whole calls: what a client achieves from presenting a token, or from a login, to the
    end of its call when no other client runs in between. */
module ProtocolCalls {
  import opened Domain
  import opened Keyspace
  import opened Tokens
  import opened Protocol
  import opened ProtocolInvariant
  import opened ProtocolRuns
  import opened ProtocolTheorems

  /** What the user lookup of the call answers, and the identifiers that the call draws. */
  datatype Answer = Answer(found: Outcome<User>, roles: seq<string>, accessId: string, refreshId: string)

  /** The client's next step of its own; an idle client has none. */
  function OwnStep(s: State, c: nat, answer: Answer, expiryAborts: bool, ttl: Lifetimes): State {
    var pc := PcOf(s, c);
    if pc.Idle? then s
    else if pc.Looking? then Next(s, Lookup(c, answer.found, answer.roles, answer.accessId, answer.refreshId), ttl)
    else Next(s, Command(c, expiryAborts), ttl)
  }

  function OwnSteps(s: State, c: nat, answer: Answer, expiryAborts: bool, n: nat, ttl: Lifetimes): State {
    if n == 0 then s
    else OwnStep(OwnSteps(s, c, answer, expiryAborts, n - 1, ttl), c, answer, expiryAborts, ttl)
  }

  /** The call that presents this token, run to its end: no call takes more than five steps. */
  function Alone(s: State, c: nat, goal: Goal, t: Claims, answer: Answer, expiryAborts: bool, ttl: Lifetimes): State {
    OwnSteps(Next(s, Present(c, goal, t), ttl), c, answer, expiryAborts, 5, ttl)
  }

  /** The call of an idle client can start. */
  ghost predicate Ready(s: State, c: nat, t: Claims, ttl: Lifetimes) {
    Reachable(s, ttl) && PcOf(s, c) == Idle && t in s.core.signed
  }

  lemma IdleStays(s: State, c: nat, answer: Answer, expiryAborts: bool, n: nat, m: nat, ttl: Lifetimes)
    requires n <= m && PcOf(OwnSteps(s, c, answer, expiryAborts, n, ttl), c) == Idle
    ensures OwnSteps(s, c, answer, expiryAborts, m, ttl) == OwnSteps(s, c, answer, expiryAborts, n, ttl)
    decreases m - n
  {
    hide Next;
    if n < m {
      IdleStays(s, c, answer, expiryAborts, n, m - 1, ttl);
    }
  }

  /** The GET of the token's session finds it past its expiry. */
  predicate FindsExpired(core: Core, id: string) {
    Find(core.store, core.now, id).Some? && core.now > Find(core.store, core.now, id).value.expiresAt
  }

  /** The type of token that a call takes; ValidateToken takes either. */
  predicate Takes(goal: Goal, kind: TokenType) {
    match goal
    case Check => true
    case Renew => kind == Refresh
    case Leave => kind == Access
    case LeaveAll => kind == Access
  }

  // ---- the first two steps ----

  /** A token of the wrong type, or one that does not parse, ends the call at once. */
  lemma PresentRefuses(s: State, c: nat, goal: Goal, t: Claims, ttl: Lifetimes)
    requires !Parses(t, s.core.now) || !Takes(goal, t.kind)
    ensures Next(s, Present(c, goal, t), ttl) == Reject(s, c, goal, t)
  {
  }

  lemma PresentFetches(s: State, c: nat, goal: Goal, t: Claims, ttl: Lifetimes)
    requires Parses(t, s.core.now) && Takes(goal, t.kind)
    ensures Next(s, Present(c, goal, t), ttl) == Goto(s, s.core, c, Fetching(goal, t))
  {
  }

  /** After the GET an accepted token goes on with its call. */
  lemma FetchAccepts(s: State, c: nat, goal: Goal, t: Claims, expiryAborts: bool, ttl: Lifetimes)
    requires PcOf(s, c) == Fetching(goal, t) && Accepted(s.core, t)
    ensures Next(s, Command(c, expiryAborts), ttl) ==
            Goto(s, s.core, c,
              if goal == Check then Idle
              else if goal == Renew then Looking(t, Find(s.core.store, s.core.now, t.sessionId).value)
              else if goal == Leave then DeleteReading(t.sessionId)
              else Listing(t.subject))
  {
  }

  /** Any other token is refused, and a session past its expiry is deleted on the way. */
  lemma FetchRefuses(s: State, c: nat, goal: Goal, t: Claims, expiryAborts: bool, ttl: Lifetimes)
    requires Inv(s, ttl) && t in s.core.signed && PcOf(s, c) == Fetching(goal, t)
    requires Parses(t, s.core.now) && !Accepted(s.core, t)
    ensures var after := Next(s, Command(c, expiryAborts), ttl);
      && after.core == s.core && after.ended == Reject(s, c, goal, t).ended
      && PcOf(after, c) == if FindsExpired(s.core, t.sessionId) then DeleteReading(t.sessionId) else Idle
  {
    if t.sessionId in s.core.store.sessions {
      SessionFacts(s, t.sessionId, ttl);
    }
    hide Inv, Fits, Parses;
  }

  // ---- calls that are refused ----

  /** The store without this session, in what it shows and lists. */
  ghost predicate Deleted(core: Core, after: Core, id: string) {
    && after.now == core.now && after.signed == core.signed
    && forall i :: Find(after.store, after.now, i) == if i == id then None else Find(core.store, core.now, i)
  }

  ghost predicate Unchanged(core: Core, after: Core) {
    && after.now == core.now && after.signed == core.signed
    && forall i :: Find(after.store, after.now, i) == Find(core.store, core.now, i)
  }

  /** GET and EXEC of a deletion in a row. */
  lemma DeletionRuns(s: State, c: nat, id: string, answer: Answer, expiryAborts: bool, ttl: Lifetimes)
    requires PcOf(s, c) == DeleteReading(id)
    ensures var after := OwnStep(OwnStep(s, c, answer, expiryAborts, ttl), c, answer, expiryAborts, ttl);
      PcOf(after, c) == Idle && after.ended == s.ended && Deleted(s.core, after.core, id)
  {
    hide Deleted;
    var found := Find(s.core.store, s.core.now, id);
    var read := OwnStep(s, c, answer, expiryAborts, ttl);
    if found.Some? {
      assert PcOf(read, c) == DeleteExecuting(id, found.value) && read.core == s.core && read.ended == s.ended;
      var after := OwnStep(read, c, answer, expiryAborts, ttl);
      assert PcOf(after, c) == Idle && after.core == Kill(s.core, id, found.value) && after.ended == s.ended;
      KillDeletes(s.core, id, found.value);
    } else {
      assert PcOf(read, c) == Idle && read.core == s.core && read.ended == s.ended;
      MissingIsDeleted(s.core, id);
    }
  }

  lemma KillDeletes(core: Core, id: string, session: AuthSession)
    ensures Deleted(core, Kill(core, id, session), id)
  {
    hide Drop;
    DropEffect(core.store, core.now, id, session);
  }

  lemma MissingIsDeleted(core: Core, id: string)
    requires Find(core.store, core.now, id).None?
    ensures Deleted(core, core, id)
  {
  }

  /** A call whose token is not accepted, or not of its type, changes nothing but that a
      session past its expiry may go; a refresh is told ErrInvalidToken. */
  lemma RefusedAlone(s: State, c: nat, goal: Goal, t: Claims, answer: Answer, expiryAborts: bool, ttl: Lifetimes)
    requires Ready(s, c, t, ttl) && !(Accepted(s.core, t) && Takes(goal, t.kind))
    ensures var after := Alone(s, c, goal, t, answer, expiryAborts, ttl);
      && PcOf(after, c) == Idle
      && after.ended == s.ended + (if goal == Renew then [Ending(t, Err(InvalidToken))] else [])
      && (|| Unchanged(s.core, after.core)
          || (FindsExpired(s.core, t.sessionId) && Deleted(s.core, after.core, t.sessionId)))
  {
    hide Reachable, Inv, Accepted, OwnStep, Parses, Takes, FindsExpired;
    var presented := Next(s, Present(c, goal, t), ttl);
    if !Parses(t, s.core.now) || !Takes(goal, t.kind) {
      PresentRefuses(s, c, goal, t, ttl);
      assert OwnSteps(presented, c, answer, expiryAborts, 0, ttl) == presented;
      IdleStays(presented, c, answer, expiryAborts, 0, 5, ttl);
    } else {
      PresentFetches(s, c, goal, t, ttl);
      ReachableInv(s, ttl);
      assert Enabled(s, Present(c, goal, t));
      StepKeeps(s, Present(c, goal, t), ttl);
      FetchedAlone(presented, c, goal, t, answer, expiryAborts, ttl);
    }
  }

  lemma FetchedAlone(s: State, c: nat, goal: Goal, t: Claims, answer: Answer, expiryAborts: bool, ttl: Lifetimes)
    requires Inv(s, ttl) && t in s.core.signed && PcOf(s, c) == Fetching(goal, t)
    requires Parses(t, s.core.now) && !Accepted(s.core, t)
    ensures var after := OwnSteps(s, c, answer, expiryAborts, 5, ttl);
      && PcOf(after, c) == Idle
      && after.ended == s.ended + (if goal == Renew then [Ending(t, Err(InvalidToken))] else [])
      && (|| Unchanged(s.core, after.core)
          || (FindsExpired(s.core, t.sessionId) && Deleted(s.core, after.core, t.sessionId)))
  {
    hide Inv, Accepted, Parses, FindsExpired, Find;
    FetchRefuses(s, c, goal, t, expiryAborts, ttl);
    var fetched := OwnSteps(s, c, answer, expiryAborts, 1, ttl);
    OneStep(s, c, answer, expiryAborts, ttl);
    if FindsExpired(s.core, t.sessionId) {
      assert Inv(fetched, ttl) by { StepKeeps(s, Command(c, expiryAborts), ttl); }
      DeletionRuns(fetched, c, t.sessionId, answer, expiryAborts, ttl);
      ThreeSteps(s, c, answer, expiryAborts, ttl);
      IdleStays(s, c, answer, expiryAborts, 3, 5, ttl);
    } else {
      IdleStays(s, c, answer, expiryAborts, 1, 5, ttl);
    }
  }

  lemma OneStep(s: State, c: nat, answer: Answer, expiryAborts: bool, ttl: Lifetimes)
    ensures OwnSteps(s, c, answer, expiryAborts, 1, ttl) == OwnStep(s, c, answer, expiryAborts, ttl)
  {
    hide OwnStep;
    assert OwnSteps(s, c, answer, expiryAborts, 0, ttl) == s;
  }

  lemma ThreeSteps(s: State, c: nat, answer: Answer, expiryAborts: bool, ttl: Lifetimes)
    ensures OwnSteps(s, c, answer, expiryAborts, 3, ttl) ==
            OwnStep(OwnStep(OwnStep(s, c, answer, expiryAborts, ttl), c, answer, expiryAborts, ttl), c, answer,
              expiryAborts, ttl)
  {
    hide OwnStep;
    OneStep(s, c, answer, expiryAborts, ttl);
    assert OwnSteps(s, c, answer, expiryAborts, 2, ttl) ==
           OwnStep(OwnSteps(s, c, answer, expiryAborts, 1, ttl), c, answer, expiryAborts, ttl);
  }

  // ---- ValidateToken, Logout and LogoutAll ----

  /** ValidateToken with an accepted token changes nothing. */
  lemma CheckAlone(s: State, c: nat, t: Claims, answer: Answer, expiryAborts: bool, ttl: Lifetimes)
    requires Ready(s, c, t, ttl) && Accepted(s.core, t)
    ensures var after := Alone(s, c, Check, t, answer, expiryAborts, ttl);
            PcOf(after, c) == Idle && after.core == s.core && after.ended == s.ended
  {
    hide Reachable, Parses, Fits;
    var fetching := Next(s, Present(c, Check, t), ttl);
    PresentFetches(s, c, Check, t, ttl);
    FetchAccepts(fetching, c, Check, t, expiryAborts, ttl);
    OneStep(fetching, c, answer, expiryAborts, ttl);
    IdleStays(fetching, c, answer, expiryAborts, 1, 5, ttl);
  }

  /** Logout with an accepted access token ends exactly the token's session. */
  lemma LogoutAlone(s: State, c: nat, t: Claims, answer: Answer, expiryAborts: bool, ttl: Lifetimes)
    requires Ready(s, c, t, ttl) && Accepted(s.core, t) && t.kind == Access
    ensures var after := Alone(s, c, Leave, t, answer, expiryAborts, ttl);
      && PcOf(after, c) == Idle && after.ended == s.ended
      && forall id :: Find(after.core.store, after.core.now, id) ==
                      if id == t.sessionId then None else Find(s.core.store, s.core.now, id)
  {
    hide Reachable, Inv, Parses, Fits, Find, OwnStep, OwnSteps;
    ReachableInv(s, ttl);
    var fetching := Next(s, Present(c, Leave, t), ttl);
    PresentFetches(s, c, Leave, t, ttl);
    FetchAccepts(fetching, c, Leave, t, expiryAborts, ttl);
    var reading := Next(fetching, Command(c, expiryAborts), ttl);
    StepKeeps(s, Present(c, Leave, t), ttl);
    StepKeeps(fetching, Command(c, expiryAborts), ttl);
    CommandIsOwn(fetching, c, answer, expiryAborts, ttl);
    DeletionRuns(reading, c, t.sessionId, answer, expiryAborts, ttl);
    ThreeSteps(fetching, c, answer, expiryAborts, ttl);
    IdleStays(fetching, c, answer, expiryAborts, 3, 5, ttl);
  }

  lemma CommandIsOwn(s: State, c: nat, answer: Answer, expiryAborts: bool, ttl: Lifetimes)
    requires !PcOf(s, c).Idle? && !PcOf(s, c).Looking?
    ensures OwnStep(s, c, answer, expiryAborts, ttl) == Next(s, Command(c, expiryAborts), ttl)
  {
  }

  /** Among the live sessions, those of this user that no sweep has missed are gone. */
  ghost predicate UserLeft(core: Core, after: Core, userId: string) {
    forall id :: Find(after.store, after.now, id) ==
      if Find(core.store, core.now, id).Some? && Find(core.store, core.now, id).value.userId == userId
         && !Swept(core, id)
      then None else Find(core.store, core.now, id)
  }

  /** SMEMBERS and DEL in a row. */
  lemma SweepRuns(s: State, c: nat, u: string, answer: Answer, expiryAborts: bool, ttl: Lifetimes)
    requires Reachable(s, ttl) && PcOf(s, c) == Listing(u)
    ensures var after := OwnStep(OwnStep(s, c, answer, expiryAborts, ttl), c, answer, expiryAborts, ttl);
      PcOf(after, c) == Idle && after.ended == s.ended && UserLeft(s.core, after.core, u)
  {
    hide Reachable, Swept;
    var ids := Members(s.core.store, s.core.now, u);
    forall id | Find(s.core.store, s.core.now, id).Some?
      ensures id in ids <==> Find(s.core.store, s.core.now, id).value.userId == u && !Swept(s.core, id)
    {
      MissingFromIndex(s, id, ttl);
      if id in ids {
        MemberIsOwned(s, u, id, ttl);
      }
    }
    hide Inv, Members;
  }

  lemma MemberIsOwned(s: State, u: string, id: string, ttl: Lifetimes)
    requires Reachable(s, ttl) && Find(s.core.store, s.core.now, id).Some?
    requires id in Members(s.core.store, s.core.now, u)
    ensures Find(s.core.store, s.core.now, id).value.userId == u
  {
    hide Reachable, ClientsOk, EndingsOk;
    ReachableInv(s, ttl);
    OwnerOfCell(s.core, id, ttl);
  }

  /** LogoutAll with an accepted access token ends exactly the sessions of the token's
      user, but for those that an earlier sweep missed. */
  lemma LogoutAllAlone(s: State, c: nat, t: Claims, answer: Answer, expiryAborts: bool, ttl: Lifetimes)
    requires Ready(s, c, t, ttl) && Accepted(s.core, t) && t.kind == Access
    ensures var after := Alone(s, c, LeaveAll, t, answer, expiryAborts, ttl);
      PcOf(after, c) == Idle && after.ended == s.ended && UserLeft(s.core, after.core, t.subject)
  {
    hide Reachable, Inv, Parses, Fits, OwnStep, OwnSteps, UserLeft;
    var fetching := Next(s, Present(c, LeaveAll, t), ttl);
    PresentFetches(s, c, LeaveAll, t, ttl);
    FetchAccepts(fetching, c, LeaveAll, t, expiryAborts, ttl);
    var listing := Next(fetching, Command(c, expiryAborts), ttl);
    ReachableStep(s, Present(c, LeaveAll, t), ttl);
    ReachableStep(fetching, Command(c, expiryAborts), ttl);
    CommandIsOwn(fetching, c, answer, expiryAborts, ttl);
    SweepRuns(listing, c, t.subject, answer, expiryAborts, ttl);
    ThreeSteps(fetching, c, answer, expiryAborts, ttl);
    IdleStays(fetching, c, answer, expiryAborts, 3, 5, ttl);
  }

  /** When no sweep has missed a session of the user, no session of the user is left, and
      none of its tokens is accepted. */
  lemma LogoutAllLeavesNone(s: State, c: nat, t: Claims, answer: Answer, expiryAborts: bool, ttl: Lifetimes)
    requires Ready(s, c, t, ttl) && Accepted(s.core, t) && t.kind == Access
    requires forall id ::
               Find(s.core.store, s.core.now, id).Some? && Find(s.core.store, s.core.now, id).value.userId == t.subject
               ==> !Swept(s.core, id)
    ensures var after := Alone(s, c, LeaveAll, t, answer, expiryAborts, ttl);
      && (forall id :: Find(after.core.store, after.core.now, id).Some? ==>
            Find(after.core.store, after.core.now, id).value.userId != t.subject)
      && (forall u: Claims :: u.subject == t.subject ==> !Accepted(after.core, u))
      && (forall id ::
            Find(s.core.store, s.core.now, id).Some? && Find(s.core.store, s.core.now, id).value.userId != t.subject ==>
            Find(after.core.store, after.core.now, id) == Find(s.core.store, s.core.now, id))
  {
    hide Alone, Swept, Find, Parses;
    LogoutAllAlone(s, c, t, answer, expiryAborts, ttl);
  }

  // ---- RefreshToken ----

  /** The session that a refresh puts in the place of the current one. */
  function Refreshed(core: Core, t: Claims, answer: Answer, ttl: Lifetimes): AuthSession
    requires Accepted(core, t) && answer.found.Ok?
  {
    AuthSession(
      t.sessionId, t.subject, answer.found.value.email, answer.roles, answer.accessId, answer.refreshId,
      Find(core.store, core.now, t.sessionId).value.createdAt, core.now + ttl.refresh)
  }

  /** How a refresh ends, run alone: with a pair exactly when the token is an accepted
      refresh token and the lookup found the token's user, active; with ErrForbidden for a
      user who is not active; with ErrInvalidToken when there is none. */
  ghost function RefreshEnds(s: State, t: Claims, answer: Answer, ttl: Lifetimes): Outcome<AuthSession> {
    if !Accepted(s.core, t) || t.kind != Refresh || answer.found.Err? then Err(InvalidToken)
    else if answer.found.value.status != Active then Err(Forbidden)
    else if answer.found.value.id == "" then Err(InvalidInput)
    else if answer.found.value.id != t.subject then Err(InvalidToken)
    else Ok(Refreshed(s.core, t, answer, ttl))
  }

  lemma RefreshAlone(s: State, c: nat, t: Claims, answer: Answer, expiryAborts: bool, ttl: Lifetimes)
    requires Ready(s, c, t, ttl) && Fresh(s.core, [answer.accessId, answer.refreshId])
    ensures var after := Alone(s, c, Renew, t, answer, expiryAborts, ttl);
      && PcOf(after, c) == Idle
      && after.ended == s.ended + [Ending(t, RefreshEnds(s, t, answer, ttl))]
      && (RefreshEnds(s, t, answer, ttl).Ok? ==>
          forall id :: Find(after.core.store, after.core.now, id) ==
                       if id == t.sessionId then Some(Refreshed(s.core, t, answer, ttl))
                       else Find(s.core.store, s.core.now, id))
      && (Accepted(s.core, t) && t.kind == Refresh && RefreshEnds(s, t, answer, ttl).Err? ==>
          after.core.store == s.core.store)
  {
    hide Reachable, Inv, Parses, Fits, OwnStep, OwnSteps, Accepted;
    if !Accepted(s.core, t) || t.kind != Refresh {
      RefusedAlone(s, c, Renew, t, answer, expiryAborts, ttl);
    } else {
      assert Parses(t, s.core.now) by { AcceptedParses(s.core, t); }
      var fetching := Next(s, Present(c, Renew, t), ttl);
      PresentFetches(s, c, Renew, t, ttl);
      SameAccepted(s.core, fetching.core, t);
      FetchAccepts(fetching, c, Renew, t, expiryAborts, ttl);
      var looking := Next(fetching, Command(c, expiryAborts), ttl);
      ReachableStep(s, Present(c, Renew, t), ttl);
      ReachableStep(fetching, Command(c, expiryAborts), ttl);
      CommandIsOwn(fetching, c, answer, expiryAborts, ttl);
      OneStep(fetching, c, answer, expiryAborts, ttl);
      LookedUp(s, looking, c, t, answer, expiryAborts, ttl);
      FiveSteps(fetching, c, answer, expiryAborts, ttl);
    }
  }

  lemma AcceptedParses(core: Core, t: Claims)
    requires Accepted(core, t)
    ensures Parses(t, core.now) && t.sessionId != "" && t.subject != "" && t.id != ""
  {
  }

  lemma SameAccepted(core: Core, after: Core, t: Claims)
    requires Accepted(core, t) && after == core
    ensures Accepted(after, t)
  {
  }

  lemma FiveSteps(s: State, c: nat, answer: Answer, expiryAborts: bool, ttl: Lifetimes)
    ensures OwnSteps(s, c, answer, expiryAborts, 5, ttl) ==
            OwnSteps(OwnStep(s, c, answer, expiryAborts, ttl), c, answer, expiryAborts, 4, ttl)
  {
    FirstStep(s, c, answer, expiryAborts, 4, ttl);
  }

  lemma {:induction false} FirstStep(s: State, c: nat, answer: Answer, expiryAborts: bool, n: nat, ttl: Lifetimes)
    ensures OwnSteps(s, c, answer, expiryAborts, n + 1, ttl) ==
            OwnSteps(OwnStep(s, c, answer, expiryAborts, ttl), c, answer, expiryAborts, n, ttl)
  {
    hide OwnStep;
    if n == 0 {
      OneStep(s, c, answer, expiryAborts, ttl);
    } else {
      FirstStep(s, c, answer, expiryAborts, n - 1, ttl);
    }
  }

  /** From the user lookup on. */
  lemma LookedUp(s: State, looking: State, c: nat, t: Claims, answer: Answer, expiryAborts: bool, ttl: Lifetimes)
    requires Reachable(looking, ttl) && Fresh(looking.core, [answer.accessId, answer.refreshId])
    requires Accepted(s.core, t) && t.kind == Refresh
    requires looking.core == s.core && looking.ended == s.ended
    requires PcOf(looking, c) == Looking(t, Find(s.core.store, s.core.now, t.sessionId).value)
    ensures var after := OwnSteps(looking, c, answer, expiryAborts, 4, ttl);
      && PcOf(after, c) == Idle
      && after.ended == s.ended + [Ending(t, RefreshEnds(s, t, answer, ttl))]
      && (if RefreshEnds(s, t, answer, ttl).Ok?
          then after.core.store == Put(s.core.store, s.core.now, Refreshed(s.core, t, answer, ttl), ttl.refresh)
               && after.core.now == s.core.now && ttl.refresh > 0
          else after.core.store == s.core.store)
  {
    hide Reachable, Inv, Parses, Put, OwnStep, OwnSteps;
    ReachableInv(looking, ttl);
    AcceptedParses(s.core, t);
    SessionFacts(looking, t.sessionId, ttl);
    var watching := OwnStep(looking, c, answer, expiryAborts, ttl);
    LookupGoes(looking, c, answer, expiryAborts, ttl);
    OneStep(looking, c, answer, expiryAborts, ttl);
    if RefreshEnds(s, t, answer, ttl).Ok? {
      RotationRuns(watching, c, Job(t.sessionId, t, Refreshed(s.core, t, answer, ttl)), answer, expiryAborts, ttl);
      FirstStep(looking, c, answer, expiryAborts, 3, ttl);
      ThreeSteps(watching, c, answer, expiryAborts, ttl);
    } else if answer.found.Ok? && answer.found.value.status == Active && answer.found.value.id != "" {
      RotationRefuses(watching, c, answer, expiryAborts, ttl);
      FirstStep(looking, c, answer, expiryAborts, 2, ttl);
      IdleStays(looking, c, answer, expiryAborts, 3, 4, ttl);
    } else {
      IdleStays(looking, c, answer, expiryAborts, 1, 4, ttl);
    }
  }

  /** The user lookup: it ends the call, or mints the next pair and goes on to rotate. */
  lemma LookupGoes(s: State, c: nat, answer: Answer, expiryAborts: bool, ttl: Lifetimes)
    requires PcOf(s, c).Looking? && Fresh(s.core, [answer.accessId, answer.refreshId]) && ttl.refresh > 0
    requires PcOf(s, c).session.id != "" && PcOf(s, c).session.createdAt != ZERO_TIME
    ensures var pc := PcOf(s, c);
      var after := OwnStep(s, c, answer, expiryAborts, ttl);
      && after.core.store == s.core.store && after.core.now == s.core.now && after.core.touched == s.core.touched
      && (answer.found.Err? ==>
          PcOf(after, c) == Idle && after.ended == s.ended + [Ending(pc.token, Err(InvalidToken))])
      && (answer.found.Ok? && answer.found.value.status != Active ==>
          PcOf(after, c) == Idle && after.ended == s.ended + [Ending(pc.token, Err(Forbidden))])
      && (answer.found.Ok? && answer.found.value.status == Active && answer.found.value.id == "" ==>
          PcOf(after, c) == Idle && after.ended == s.ended + [Ending(pc.token, Err(InvalidInput))])
      && (answer.found.Ok? && answer.found.value.status == Active && answer.found.value.id != "" ==>
          && after.ended == s.ended
          && PcOf(after, c) == Watching(
               Job(pc.session.id, pc.token, AuthSession(
                     pc.session.id, answer.found.value.id, answer.found.value.email, answer.roles, answer.accessId,
                     answer.refreshId, pc.session.createdAt, s.core.now + ttl.refresh)), 0))
  {
    hide MintToken;
    var ids := [answer.accessId, answer.refreshId];
    assert ids[0] == answer.accessId && ids[1] == answer.refreshId;
  }

  lemma SessionFacts(s: State, id: string, ttl: Lifetimes)
    requires Inv(s, ttl) && id in s.core.store.sessions
    ensures s.core.store.sessions[id].value.id == id && s.core.store.sessions[id].value.createdAt != ZERO_TIME
    ensures ttl.refresh > 0
  {
    hide ClientsOk, EndingsOk;
    OwnerOfCell(s.core, id, ttl);
  }

  /** WATCH, GET and EXEC in a row, for a job that the session fits. */
  lemma RotationRuns(s: State, c: nat, job: Job, answer: Answer, expiryAborts: bool, ttl: Lifetimes)
    requires PcOf(s, c) == Watching(job, 0) && job.next.id == job.sessionId
    requires Current(s.core, job.sessionId, job.token.id)
    requires Find(s.core.store, s.core.now, job.sessionId).value.userId == job.next.userId
    ensures var after := OwnStep(OwnStep(OwnStep(s, c, answer, expiryAborts, ttl), c, answer, expiryAborts, ttl), c,
                           answer, expiryAborts, ttl);
      && PcOf(after, c) == Idle && after.ended == s.ended + [Ending(job.token, Ok(job.next))]
      && after.core == Publish(s.core, job.next, ttl.refresh)
  {
    hide Publish;
    var watched := OwnStep(s, c, answer, expiryAborts, ttl);
    assert PcOf(watched, c) == Reading(job, 0, Version(s.core, job.sessionId)) && watched.core == s.core;
    var read := OwnStep(watched, c, answer, expiryAborts, ttl);
    assert PcOf(read, c) == Executing(job, 0, Version(s.core, job.sessionId)) && read.core == s.core;
  }

  /** WATCH and GET in a row, for a job of another user. */
  lemma RotationRefuses(s: State, c: nat, answer: Answer, expiryAborts: bool, ttl: Lifetimes)
    requires PcOf(s, c).Watching?
    requires var job := PcOf(s, c).job;
      Find(s.core.store, s.core.now, job.sessionId).Some?
      && Find(s.core.store, s.core.now, job.sessionId).value.userId != job.next.userId
    ensures var after := OwnSteps(s, c, answer, expiryAborts, 2, ttl);
      && PcOf(after, c) == Idle && after.core == s.core
      && after.ended == s.ended + [Ending(PcOf(s, c).job.token, Err(InvalidToken))]
  {
    OneStep(s, c, answer, expiryAborts, ttl);
    assert OwnSteps(s, c, answer, expiryAborts, 2, ttl) ==
           OwnStep(OwnSteps(s, c, answer, expiryAborts, 1, ttl), c, answer, expiryAborts, ttl);
  }

  // ---- Authenticate and revocation ----

  /** A login, run alone, stores exactly the session it minted, created now, and signs its
      two tokens. */
  lemma LoginAlone(
    s: State, c: nat, user: User, roles: seq<string>, id: string, answer: Answer, expiryAborts: bool, ttl: Lifetimes)
    requires Reachable(s, ttl) && PcOf(s, c) == Idle && user.id != ""
    requires Fresh(s.core, [id, answer.accessId, answer.refreshId])
    ensures var login := Login(c, user, roles, id, answer.accessId, answer.refreshId);
      var after := OwnSteps(Next(s, login, ttl), c, answer, expiryAborts, 5, ttl);
      var session := AuthSession(
        id, user.id, user.email, roles, answer.accessId, answer.refreshId, s.core.now, s.core.now + ttl.refresh);
      && PcOf(after, c) == Idle && after.ended == s.ended
      && (forall i :: Find(after.core.store, after.core.now, i) ==
                      if i == id then Some(session) else Find(s.core.store, s.core.now, i))
      && id in Members(after.core.store, after.core.now, user.id)
      && (user.email != "" ==>
          && Accepted(after.core, MintToken(session, Access, s.core.now, ttl))
          && Accepted(after.core, MintToken(session, Refresh, s.core.now, ttl)))
  {
    hide Reachable, Inv, OwnSteps, Publish;
    ReachableInv(s, ttl);
    ClockFacts(s, ttl);
    var ids := [id, answer.accessId, answer.refreshId];
    assert ids[0] == id && ids[1] == answer.accessId && ids[2] == answer.refreshId;
    var session := AuthSession(
      id, user.id, user.email, roles, answer.accessId, answer.refreshId, s.core.now, s.core.now + ttl.refresh);
    var creating := Next(s, Login(c, user, roles, id, answer.accessId, answer.refreshId), ttl);
    assert PcOf(creating, c) == Creating(session);
    var after := OwnStep(creating, c, answer, expiryAborts, ttl);
    assert after.core == Publish(creating.core, session, ttl.refresh) && PcOf(after, c) == Idle;
    OneStep(creating, c, answer, expiryAborts, ttl);
    IdleStays(creating, c, answer, expiryAborts, 1, 5, ttl);
    PublishShows(creating.core, session, ttl);
  }

  /** A session stored at its minting is shown, listed, and its tokens are accepted. */
  lemma PublishShows(core: Core, session: AuthSession, ttl: Lifetimes)
    requires ttl.Valid() && session.expiresAt == core.now + ttl.refresh
    requires session.id != "" && session.userId != "" && session.accessId != "" && session.refreshId != ""
    requires MintToken(session, Access, core.now, ttl) in core.signed
    requires MintToken(session, Refresh, core.now, ttl) in core.signed
    ensures var after := Publish(core, session, ttl.refresh);
      && (forall i :: Find(after.store, after.now, i) ==
                      if i == session.id then Some(session) else Find(core.store, core.now, i))
      && session.id in Members(after.store, after.now, session.userId)
      && (session.email != "" ==>
          && Accepted(after, MintToken(session, Access, core.now, ttl))
          && Accepted(after, MintToken(session, Refresh, core.now, ttl)))
  {
  }

  lemma ClockFacts(s: State, ttl: Lifetimes)
    requires Inv(s, ttl)
    ensures s.core.now > ZERO_TIME && ttl.Valid()
  {
    hide ClientsOk, EndingsOk;
  }

  /** The revocation before a role change or deletion, run alone. */
  lemma RevokeAlone(s: State, c: nat, u: string, answer: Answer, expiryAborts: bool, ttl: Lifetimes)
    requires Reachable(s, ttl) && PcOf(s, c) == Idle && u != ""
    ensures var after := OwnSteps(Next(s, Revoke(c, u), ttl), c, answer, expiryAborts, 5, ttl);
      PcOf(after, c) == Idle && after.ended == s.ended && UserLeft(s.core, after.core, u)
  {
    hide Reachable, Inv, OwnStep, UserLeft;
    var listing := Next(s, Revoke(c, u), ttl);
    ReachableStep(s, Revoke(c, u), ttl);
    SweepRuns(listing, c, u, answer, expiryAborts, ttl);
    assert OwnSteps(listing, c, answer, expiryAborts, 2, ttl) ==
           OwnStep(OwnSteps(listing, c, answer, expiryAborts, 1, ttl), c, answer, expiryAborts, ttl);
    OneStep(listing, c, answer, expiryAborts, ttl);
    IdleStays(listing, c, answer, expiryAborts, 2, 5, ttl);
  }

  // ---- failing commands ----

  /** A command or lookup that fails ends the call without effect; a refresh is told
      ErrInvalidToken up to its user lookup and an internal error from its rotation on. */
  lemma FaultEnds(s: State, c: nat, ttl: Lifetimes)
    requires !PcOf(s, c).Idle?
    ensures var after := Next(s, Fault(c), ttl);
      var pc := PcOf(s, c);
      && PcOf(after, c) == Idle && after.core == s.core
      && after.ended == s.ended + (
           match pc
           case Fetching(goal, t) => if goal == Renew then [Ending(t, Err(InvalidToken))] else []
           case Looking(t, _) => [Ending(t, Err(InvalidToken))]
           case Watching(job, _) => [Ending(job.token, Err(Internal))]
           case Reading(job, _, _) => [Ending(job.token, Err(Internal))]
           case Executing(job, _, _) => [Ending(job.token, Err(Internal))]
           case _ => [])
  {
  }
}
