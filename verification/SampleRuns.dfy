/** Example runs of the protocol. */
module SampleRuns {
  import opened Domain
  import opened Keyspace
  import opened Tokens
  import opened Protocol
  import opened ProtocolInvariant
  import opened ProtocolTheorems
  import opened ProtocolAccounts
  import opened Samples

  /** The session that a login of that user mints at time 1, before the user has a role. */
  function EarlySession(): AuthSession {
    MintSession(CUSTOMER, [], "s", 1, 1, "a", "r", TTL)
  }

  function EmptyStart(): Tracked {
    Tracked(
      State(Core(1, 1, Store(map[], map[]), map[], {}, map[], map[], {}, map[], []), map[], []), map[], map[])
  }

  const EARLY_LOGIN := Login(0, CUSTOMER, [], "s", "a", "r")

  /** A login has read the roles. */
  function LoggingIn(): Tracked {
    Moved(EmptyStart(), Inner(EARLY_LOGIN), TTL)
  }

  lemma LoginReads()
    ensures TrackedReachable(LoggingIn(), TTL)
    ensures LoggingIn().s.clients == map[0 := Creating(EarlySession())] && LoggingIn().editions == map[]
    ensures MintToken(EarlySession(), Access, 1, TTL) in LoggingIn().s.core.signed
    ensures var core := LoggingIn().s.core; core == EmptyStart().s.core.(signed := core.signed, origins := core.origins)
  {
    hide TrackedReachable;
    StartReaches();
    var ids := ["s", "a", "r"];
    assert ids[0] != ids[1] && ids[1] != ids[2] && ids[0] != ids[2];
    MoveReaches(EmptyStart(), Inner(EARLY_LOGIN), TTL);
  }

  /** Another client then revokes the user's sessions and is about to delete what SMEMBERS
      showed: nothing. */
  lemma LoginMeetsSweep() returns (r: Tracked)
    ensures TrackedReachable(r, TTL)
    ensures PcOf(r.s, 0) == Creating(EarlySession()) && PcOf(r.s, 1) == Erasing("u", {}, 1)
    ensures r.s.core == EmptyStart().s.core.(
              stamp := 2, signed := r.s.core.signed, origins := r.s.core.origins)
    ensures MintToken(EarlySession(), Access, 1, TTL) in r.s.core.signed && r.editions == map[]
  {
    hide TrackedReachable, EarlySession;
    r := LoggingIn();
    LoginReads();
    hide LoggingIn;
    MoveReaches(r, Inner(Revoke(1, "u")), TTL);
    r := Moved(r, Inner(Revoke(1, "u")), TTL);
    MoveReaches(r, Inner(Command(1, false)), TTL);
    r := Moved(r, Inner(Command(1, false)), TTL);
  }

  lemma StartReaches()
    ensures TrackedReachable(EmptyStart(), TTL)
  {
    var start := EmptyStart();
    assert TrackedInitial(start) && CanMove(start, [], TTL) && AfterMoves(start, [], TTL) == start;
  }

  /** What both orders have in common. */
  ghost predicate LivesOn(r: Tracked) {
    && TrackedReachable(r, TTL) && r.editions == map[]
    && Find(r.s.core.store, r.s.core.now, "s") == Some(EarlySession())
    && |r.s.core.sweeps| == 1 && r.s.core.sweeps[0].userId == "u"
    && r.s.core.now == 1 && MintToken(EarlySession(), Access, 1, TTL) in r.s.core.signed
  }

  lemma StoredBeforeDel() returns (r: Tracked)
    ensures LivesOn(r) && "s" !in Members(r.s.core.store, r.s.core.now, "u")
  {
    hide TrackedReachable, MintToken;
    r := LoginMeetsSweep();
    MoveReaches(r, Inner(Command(0, false)), TTL);
    r := Moved(r, Inner(Command(0, false)), TTL);
    MoveReaches(r, Inner(Command(1, false)), TTL);
    r := Moved(r, Inner(Command(1, false)), TTL);
  }

  lemma StoredAfterDel() returns (r: Tracked)
    ensures LivesOn(r) && "s" in Members(r.s.core.store, r.s.core.now, "u")
  {
    hide TrackedReachable, MintToken;
    r := LoginMeetsSweep();
    MoveReaches(r, Inner(Command(1, false)), TTL);
    r := Moved(r, Inner(Command(1, false)), TTL);
    MoveReaches(r, Inner(Command(0, false)), TTL);
    r := Moved(r, Inner(Command(0, false)), TTL);
  }

  /** The login stores its session before or after the other client's DEL. Both ways the
      session lives on: stored after it, it is in the index and no sweep missed it; stored
      before it, it is in no index. */
  lemma SweepMisses(late: bool) returns (r: Tracked)
    ensures LivesOn(r) && ("s" in Members(r.s.core.store, r.s.core.now, "u") <==> late)
  {
    hide LivesOn;
    if late {
      r := StoredAfterDel();
    } else {
      r := StoredBeforeDel();
    }
  }

  /** A reachable state with a live session outside of its user's index. */
  lemma SessionOutsideIndex() returns (s: State)
    ensures Reachable(s, TTL) && Find(s.core.store, s.core.now, "s").Some?
    ensures "s" !in Members(s.core.store, s.core.now, s.core.store.sessions["s"].value.userId)
    ensures Swept(s.core, "s")
  {
    hide TrackedReachable, Reachable, Swept;
    var r := SweepMisses(false);
    TrackedIsReachable(r, TTL);
    s := r.s;
    MissingFromIndex(s, "s", TTL);
  }

  /** After the role is written, or the user deleted, the login's token is stale and
      accepted, in either way of escaping the sweep. */
  lemma StaleTokenHappens(late: bool, deletion: bool) returns (r: Tracked, t: Claims)
    ensures TrackedReachable(r, TTL) && Accepted(r.s.core, t)
    ensures t.roles == [] && !Editions(r, t.subject)[0].deleted
    ensures Latest(r, t.subject) == if deletion then Edition([], true, 0) else Edition(["admin"], false, 0)
    ensures Swept(r.s.core, t.sessionId) <==> !late
  {
    hide TrackedReachable, Reachable, Swept;
    r := SweepMisses(late);
    TrackedIsReachable(r, TTL);
    MissingFromIndex(r.s, "s", TTL);
    var change := if deletion then Remove("u", 0) else Write("u", ["admin"], 0);
    MoveReaches(r, change, TTL);
    r := Moved(r, change, TTL);
    t := MintToken(EarlySession(), Access, 1, TTL);
  }

  // ---- a logout that is undone ----

  const EMPTY_STORE: Store := Store(map[], map[])

  /** The pair of the second client's refresh, one second later. */
  function LaterSession(): AuthSession {
    MintSession(CUSTOMER, [], "s", 1, 1 + SECOND, "b", "q", TTL)
  }

  function EarlyToken(kind: TokenType): Claims {
    MintToken(EarlySession(), kind, 1, TTL)
  }

  function LaterToken(kind: TokenType): Claims {
    MintToken(LaterSession(), kind, 1 + SECOND, TTL)
  }

  function Renewal(): Job {
    Job("s", EarlyToken(Refresh), LaterSession())
  }

  /** The early session is stored and nothing has touched it since. */
  predicate EarlyStored(s: State, now: int) {
    && s.core.now == now
    && s.core.store == Put(EMPTY_STORE, 1, EarlySession(), TTL.refresh)
    && EarlyToken(Access) in s.core.signed && EarlyToken(Refresh) in s.core.signed
  }

  lemma EarlyLogin() returns (s: State)
    ensures Reachable(s, TTL) && EarlyStored(s, 1 + SECOND)
    ensures s.clients == map[0 := Idle] && s.core.origins.Keys == {"s", "a", "r"}
  {
    hide TrackedReachable, Reachable, MintToken;
    LoginReads();
    TrackedIsReachable(LoggingIn(), TTL);
    s := LoggingIn().s;
    ReachableStep(s, Command(0, false), TTL);
    s := Next(s, Command(0, false), TTL);
    ReachableStep(s, Tick(SECOND), TTL);
    s := Next(s, Tick(SECOND), TTL);
  }

  /** The second client refreshes, up to its user lookup. */
  lemma RenewalLooks() returns (s: State)
    ensures Reachable(s, TTL) && EarlyStored(s, 1 + SECOND)
    ensures s.clients == map[0 := Idle, 1 := Looking(EarlyToken(Refresh), EarlySession())]
    ensures s.core.origins.Keys == {"s", "a", "r"}
  {
    hide Reachable, Put;
    s := EarlyLogin();
    PutShows(1 + SECOND);
    ReachableStep(s, Present(1, Renew, EarlyToken(Refresh)), TTL);
    s := Next(s, Present(1, Renew, EarlyToken(Refresh)), TTL);
    ReachableStep(s, Command(1, false), TTL);
    s := Next(s, Command(1, false), TTL);
  }

  lemma PutShows(now: int)
    requires 1 <= now
    ensures Find(Put(EMPTY_STORE, 1, EarlySession(), TTL.refresh), now, "s") ==
            if now <= 1 + TTL.refresh then Some(EarlySession()) else None
  {
  }

  /** It finds the user active and is ready to rotate. */
  lemma RenewalMints() returns (s: State)
    ensures Reachable(s, TTL) && EarlyStored(s, 1 + SECOND)
    ensures s.clients == map[0 := Idle, 1 := Watching(Renewal(), 0)]
    ensures LaterToken(Access) in s.core.signed
  {
    hide Reachable, Put;
    s := RenewalLooks();
    var ids := ["b", "q"];
    assert ids[0] != ids[1] && ids[0] !in s.core.origins && ids[1] !in s.core.origins;
    var lookup := Lookup(1, Ok(CUSTOMER), [], "b", "q");
    ReachableStep(s, lookup, TTL);
    s := Next(s, lookup, TTL);
  }

  /** It watches and reads the key; its EXEC is next. */
  lemma RenewalReads() returns (s: State)
    ensures Reachable(s, TTL) && EarlyStored(s, 1 + SECOND)
    ensures s.clients == map[0 := Idle, 1 := Executing(Renewal(), 0, Version(s.core, "s"))]
    ensures LaterToken(Access) in s.core.signed
  {
    hide Reachable, Put, LaterToken;
    s := RenewalMints();
    PutShows(1 + SECOND);
    ReachableStep(s, Command(1, false), TTL);
    s := Next(s, Command(1, false), TTL);
    ReachableStep(s, Command(1, false), TTL);
    s := Next(s, Command(1, false), TTL);
  }

  /** A third client logs out; its token has been checked when the session's time is up. */
  lemma LogoutComesLate() returns (s: State)
    ensures Reachable(s, TTL) && EarlyStored(s, 2 + 2 * SECOND)
    ensures PcOf(s, 1) == Executing(Renewal(), 0, Version(s.core, "s")) && PcOf(s, 2) == DeleteReading("s")
    ensures LaterToken(Access) in s.core.signed
  {
    hide Reachable, Put, LaterToken, Renewal;
    s := RenewalReads();
    PutShows(1 + SECOND);
    ReachableStep(s, Present(2, Leave, EarlyToken(Access)), TTL);
    s := Next(s, Present(2, Leave, EarlyToken(Access)), TTL);
    ReachableStep(s, Command(2, false), TTL);
    s := Next(s, Command(2, false), TTL);
    ReachableStep(s, Tick(SECOND + 1), TTL);
    s := Next(s, Tick(SECOND + 1), TTL);
  }

  /** The logout's GET finds nothing and the logout succeeds; then the rotation stores the
      session again, and its new access token is accepted. */
  lemma LogoutUndone() returns (s: State, t: Claims)
    ensures Reachable(s, TTL) && t.sessionId == "s"
    ensures PcOf(s, 2) == DeleteReading("s") && Find(s.core.store, s.core.now, "s").None?
    ensures CanRun(s, [Command(2, false)] + [Command(1, false)], TTL)
    ensures Accepted(After(s, [Command(2, false)] + [Command(1, false)], TTL).core, t)
  {
    hide Reachable;
    s := LogoutComesLate();
    t := LaterToken(Access);
    PutShows(2 + 2 * SECOND);
    var answered := Next(s, Command(2, false), TTL);
    var stored := Next(answered, Command(1, false), TTL);
    TwoSteps(s, Command(2, false), Command(1, false));
    assert Find(stored.core.store, stored.core.now, "s") == Some(LaterSession());
  }

  lemma TwoSteps(s: State, a: Action, b: Action)
    requires Enabled(s, a) && Enabled(Next(s, a, TTL), b)
    ensures CanRun(s, [a] + [b], TTL) && After(s, [a] + [b], TTL) == Next(Next(s, a, TTL), b, TTL)
  {
    hide Enabled, Next;
    assert ([a] + [b])[1..] == [b] && [b][1..] == [];
    var next := Next(s, a, TTL);
    assert CanRun(next, [b], TTL) && After(next, [b], TTL) == Next(next, b, TTL);
  }
}
