/** What becomes of a session over whole runs of service calls, however users are named. */
module SessionLineage {
  import opened Domain
  import opened Keyspace
  import opened Text
  import opened Tokens
  import opened UserTable
  import opened Service
  import opened Agreement
  import opened Accounts
  import SessionStore

  /** The same session, later on: it keeps its id, its user and its creation time, and its
      expiry has not moved back. */
  predicate Continues(before: AuthSession, after: AuthSession) {
    && after.id == before.id && after.userId == before.userId && after.createdAt == before.createdAt
    && before.expiresAt <= after.expiresAt
  }

  /** Every session that is shown has begun and ends within one refresh lifetime. */
  ghost predicate SessionsOk(w: World, ttl: Lifetimes) {
    && ttl.Valid() && w.now > ZERO_TIME && TableOk(w.table) && IdsUsed(w)
    && SessionStore.Indexed(w.store, w.now, ttl.refresh)
    && forall id :: Find(w.store, w.now, id).Some? ==>
         var session := Find(w.store, w.now, id).value;
         ZERO_TIME < session.createdAt <= w.now && session.expiresAt <= w.now + ttl.refresh
  }

  /** Every session that is shown afterwards under a known id was shown before. */
  ghost predicate Lineage(w: World, after: World) {
    && w.used <= after.used && w.now <= after.now
    && forall id :: id in w.used && Find(after.store, after.now, id).Some? ==>
         Find(w.store, w.now, id).Some?
         && Continues(Find(w.store, w.now, id).value, Find(after.store, after.now, id).value)
  }

  // ---- steps that store nothing ----

  lemma ForgettingContinues(w: World, after: World, ttl: Lifetimes)
    requires SessionsOk(w, ttl) && TableOk(after.table)
    requires w.used <= after.used && w.now <= after.now
    requires SessionStore.Indexed(after.store, after.now, ttl.refresh)
    requires Forgets(w.store, w.now, after.store, after.now) && Narrows(w.store, after.store)
    ensures SessionsOk(after, ttl) && Lineage(w, after)
  {
    hide SessionStore.Indexed, TableOk, Find;
    forall u | u in after.store.index ensures after.store.index[u].value <= after.used {
      assert after.store.index[u].value <= w.store.index[u].value;
    }
  }

  lemma DeletionContinues(w: World, id: string, ttl: Lifetimes)
    requires SessionsOk(w, ttl)
    ensures var after := w.(store := SessionStore.Delete(w.store, w.now, id));
            SessionsOk(after, ttl) && Lineage(w, after)
  {
    hide TableOk, SessionStore.Delete, SessionStore.Indexed;
    SessionStore.OperationsKeepIndex(w.store, w.now, ttl.refresh, AuthSession("", "", "", [], "", "", 0, 0), id,
      "", "");
    DropForgets(w.store, w.now, id);
    ForgettingContinues(w, w.(store := SessionStore.Delete(w.store, w.now, id)), ttl);
  }

  lemma WipeContinues(w: World, userId: string, ttl: Lifetimes)
    requires SessionsOk(w, ttl)
    ensures var after := w.(store := SessionStore.DeleteAllForUser(w.store, w.now, userId).0);
            SessionsOk(after, ttl) && Lineage(w, after)
  {
    hide TableOk, SessionStore.Indexed;
    if userId != "" {
      SessionStore.DeleteAllIsExact(w.store, w.now, userId, ttl.refresh);
    }
    ForgettingContinues(w, w.(store := SessionStore.DeleteAllForUser(w.store, w.now, userId).0), ttl);
  }

  lemma TimeContinues(w: World, after: World, ttl: Lifetimes)
    requires SessionsOk(w, ttl) && after.store == w.store && w.now <= after.now && w.used <= after.used
    requires TableOk(after.table)
    ensures SessionsOk(after, ttl) && Lineage(w, after)
  {
    hide TableOk;
    SessionStore.TimeKeepsIndex(w.store, w.now, after.now, ttl.refresh);
    hide SessionStore.Indexed;
    ForgettingContinues(w, after, ttl);
  }

  lemma LineageComposes(a: World, b: World, c: World)
    requires Lineage(a, b) && Lineage(b, c)
    ensures Lineage(a, c)
  {
    hide Find;
  }

  lemma ValidationContinues(w: World, token: Claims, expected: Option<TokenType>, outage: Outage, ttl: Lifetimes)
    requires SessionsOk(w, ttl)
    ensures var (after, result) := ValidateUnder(w, token, expected, outage);
      && SessionsOk(after, ttl) && Lineage(w, after)
      && (result.Ok? ==> after == w && Find(w.store, w.now, token.sessionId) == Some(result.value)
                         && result.value.id == token.sessionId && result.value.userId == token.subject)
  {
    hide TableOk, SessionStore.Indexed, SessionStore.Delete, Parses;
    var found := Find(w.store, w.now, token.sessionId);
    if found.Some? {
      SessionStore.KeyIsId(w.store, w.now, ttl.refresh, token.sessionId);
      DeletionContinues(w, found.value.id, ttl);
    }
    TimeContinues(w, w, ttl);
  }

  // ---- steps that store a session ----

  /** The session that a login stores. */
  function OpenedSession(w: World, row: Row, roles: seq<string>, draw: Draw, ttl: Lifetimes): AuthSession {
    AuthSession(
      draw.sessionId, row.id, row.email, roles, draw.accessId, draw.refreshId, w.now, w.now + ttl.refresh)
  }

  /** A successful login leaves exactly one session more: created at the time of the call,
      for the row's id, address and role names, to expire one refresh lifetime later. */
  lemma LoginStores(w: World, call: Call, outage: Outage, ttl: Lifetimes) returns (row: Row)
    requires SessionsOk(w, ttl) && call.Authenticate? && Possible(w, call)
    requires Apply(w, call, outage, ttl).1.Pair?
    ensures FindByEmail(w.table, NormalizeEmail(call.email)) == Ok(row)
    ensures var (after, reply) := Apply(w, call, outage, ttl);
      var session := OpenedSession(w, row, RoleNamesOf(w.table, row.id), call.draw, ttl);
      && after.now == w.now + call.draw.delay && after.table == w.table
      && after.store == Put(w.store, after.now, session, ttl.refresh)
      && after.used == w.used + {call.draw.sessionId, call.draw.accessId, call.draw.refreshId}
      && after.signed == w.signed + {reply.access, reply.refresh}
      && reply.access == MintToken(session, Access, w.now, ttl)
      && reply.refresh == MintToken(session, Refresh, w.now, ttl)
  {
    hide NormalizeEmail, FindByEmail, Apply, RoleNamesOf, TableOk, MintToken;
    LoginCases(w, call.email, call.password, call.draw, outage, ttl);
    row := FindByEmail(w.table, NormalizeEmail(call.email)).value;
  }

  lemma PutStores(w: World, after: World, session: AuthSession, ttl: Lifetimes)
    requires SessionsOk(w, ttl) && after.store == Put(w.store, w.now, session, ttl.refresh)
    requires after == w.(store := after.store) && session.id in w.used
    requires ZERO_TIME < session.createdAt <= w.now && session.expiresAt <= w.now + ttl.refresh
    requires SessionStore.Unused(w.store, session.id) ||
             (Find(w.store, w.now, session.id).Some? && Find(w.store, w.now, session.id).value.userId == session.userId)
    ensures SessionsOk(after, ttl)
    ensures forall id :: Find(after.store, after.now, id) ==
                         if id == session.id then Some(session) else Find(w.store, w.now, id)
  {
    hide TableOk;
    SessionStore.PutKeepsIndex(w.store, w.now, session, ttl.refresh);
    PutKeepsIds(w, session, ttl.refresh);
    PutFinds(w.store, w.now, session, ttl.refresh);
    hide Put, SessionStore.Indexed, IdsUsed, SessionStore.Unused;
  }

  lemma LoginContinues(w: World, call: Call, outage: Outage, ttl: Lifetimes)
    requires SessionsOk(w, ttl) && call.Authenticate? && Possible(w, call)
    ensures var after := Apply(w, call, outage, ttl).0; SessionsOk(after, ttl) && Lineage(w, after)
  {
    hide NormalizeEmail, FindByEmail, Apply, RoleNamesOf, TableOk, MintToken, SessionStore.Indexed, Put;
    var (after, reply) := Apply(w, call, outage, ttl);
    LoginCases(w, call.email, call.password, call.draw, outage, ttl);
    if reply.Pair? {
      var row := LoginStores(w, call, outage, ttl);
      var session := OpenedSession(w, row, RoleNamesOf(w.table, row.id), call.draw, ttl);
      var ids := [call.draw.sessionId, call.draw.accessId, call.draw.refreshId];
      assert ids[0] == session.id && ids[0] !in w.used;
      var minted := w.(now := after.now, used := after.used, signed := after.signed);
      TimeContinues(w, minted, ttl);
      IdIsUnused(w, session.id);
      PutStores(minted, after, session, ttl);
    } else {
      TimeContinues(w, after, ttl);
    }
  }

  lemma IdIsUnused(w: World, id: string)
    requires IdsUsed(w) && id !in w.used
    ensures SessionStore.Unused(w.store, id)
  {
    forall u | u in w.store.index ensures id !in w.store.index[u].value {
      assert w.store.index[u].value <= w.used;
    }
  }

  /** The session that a refresh stores in the place of the current one. */
  function RenewedSession(
    w: World, current: AuthSession, row: Row, roles: seq<string>, draw: Draw, ttl: Lifetimes): AuthSession
  {
    AuthSession(
      current.id, current.userId, row.email, roles, draw.accessId, draw.refreshId, current.createdAt,
      w.now + ttl.refresh)
  }

  /** A successful refresh replaces the session that its token named: same id, user and
      creation time, the row's present address and role names, two new token ids, to expire
      one refresh lifetime after the call; every other session stays. */
  lemma RefreshStores(w: World, call: Call, outage: Outage, ttl: Lifetimes) returns (row: Row, current: AuthSession)
    requires SessionsOk(w, ttl) && call.RefreshToken? && Possible(w, call)
    requires Apply(w, call, outage, ttl).1.Pair?
    ensures FindById(w.table, call.token.subject) == Ok(row) && row.id == call.token.subject
    ensures Find(w.store, w.now, call.token.sessionId) == Some(current) && current.id == call.token.sessionId
    ensures Find(w.store, w.now + call.draw.delay, current.id).Some?
    ensures var (after, reply) := Apply(w, call, outage, ttl);
      var session := RenewedSession(w, current, row, RoleNamesOf(w.table, row.id), call.draw, ttl);
      && after.now == w.now + call.draw.delay && after.table == w.table
      && after.store == Put(w.store, after.now, session, ttl.refresh)
      && after.used == w.used + {current.id, call.draw.accessId, call.draw.refreshId}
      && after.signed == w.signed + {reply.access, reply.refresh}
      && reply.access == MintToken(session, Access, w.now, ttl)
      && reply.refresh == MintToken(session, Refresh, w.now, ttl)
  {
    ValidationContinues(w, call.token, Some(Refresh), outage, ttl);
    hide ParseUserId, Apply, RoleNamesOf, MintToken, ValidateUnder, SessionsOk, Put, Renew, FindById;
    RefreshCases(w, call.token, call.draw, outage, ttl);
    row := FindById(w.table, call.token.subject).value;
    current := ValidateUnder(w, call.token, Some(Refresh), outage).1.value;
    assert current.createdAt > ZERO_TIME by { ShownHasBegun(w, call.token.sessionId, ttl); }
    RenewStores(w, row, current, call.token.id, call.draw, outage, ttl);
  }

  lemma ShownHasBegun(w: World, id: string, ttl: Lifetimes)
    requires SessionsOk(w, ttl) && Find(w.store, w.now, id).Some?
    ensures Find(w.store, w.now, id).value.createdAt > ZERO_TIME
  {
  }

  lemma RenewStores(
    w: World, row: Row, current: AuthSession, refreshId: string, draw: Draw, outage: Outage, ttl: Lifetimes)
    requires current.createdAt > ZERO_TIME && Find(w.store, w.now, current.id) == Some(current)
    requires Renew(w, row, current, refreshId, draw, outage, ttl).1.Pair?
    ensures row.id == current.userId && Find(w.store, w.now + draw.delay, current.id).Some?
    ensures var (after, reply) := Renew(w, row, current, refreshId, draw, outage, ttl);
      var session := RenewedSession(w, current, row, RoleNamesOf(w.table, row.id), draw, ttl);
      && after.now == w.now + draw.delay && after.table == w.table
      && after.store == Put(w.store, after.now, session, ttl.refresh)
      && after.used == w.used + {current.id, draw.accessId, draw.refreshId}
      && after.signed == w.signed + {reply.access, reply.refresh}
      && reply.access == MintToken(session, Access, w.now, ttl)
      && reply.refresh == MintToken(session, Refresh, w.now, ttl)
  {
    hide RoleNamesOf, MintToken, Put;
  }

  lemma RefreshContinues(w: World, call: Call, outage: Outage, ttl: Lifetimes)
    requires SessionsOk(w, ttl) && call.RefreshToken? && Possible(w, call)
    ensures var after := Apply(w, call, outage, ttl).0; SessionsOk(after, ttl) && Lineage(w, after)
  {
    hide ParseUserId, Apply, RoleNamesOf, TableOk, MintToken, SessionStore.Indexed, Put, ValidateUnder;
    var (after, reply) := Apply(w, call, outage, ttl);
    RefreshCases(w, call.token, call.draw, outage, ttl);
    ValidationContinues(w, call.token, Some(Refresh), outage, ttl);
    var checked := ValidateUnder(w, call.token, Some(Refresh), outage).0;
    if reply.Pair? {
      var row, current := RefreshStores(w, call, outage, ttl);
      var session := RenewedSession(w, current, row, RoleNamesOf(w.table, row.id), call.draw, ttl);
      var minted := w.(now := after.now, used := after.used, signed := after.signed);
      TimeContinues(w, minted, ttl);
      PutStores(minted, after, session, ttl);
    } else if after != checked {
      TimeContinues(w, after, ttl);
    }
  }

  // ---- every call, every run ----

  /** A call that revokes sessions and then changes the tables. */
  lemma RevocationContinues<T>(
    w: World, id: string, outage: Outage, change: Table -> (Table, Outcome<T>), ttl: Lifetimes)
    requires SessionsOk(w, ttl) && TableOk(change(w.table).0)
    ensures var after := AfterRevocation(w, id, outage, change).0; SessionsOk(after, ttl) && Lineage(w, after)
  {
    hide TableOk, SessionStore.Indexed, SessionStore.DeleteAllForUser;
    WipeContinues(w, id, ttl);
    var wiped := w.(store := SessionStore.DeleteAllForUser(w.store, w.now, id).0);
    var after := AfterRevocation(w, id, outage, change).0;
    TimeContinues(w, w, ttl);
    TimeContinues(wiped, wiped.(table := change(w.table).0), ttl);
    LineageComposes(w, wiped, wiped.(table := change(w.table).0));
  }

  lemma TableCallContinues(w: World, call: Call, outage: Outage, ttl: Lifetimes)
    requires SessionsOk(w, ttl) && Possible(w, call)
    requires call.CreateUser? || call.UpdateUser? || call.Wait?
    ensures var after := Apply(w, call, outage, ttl).0; SessionsOk(after, ttl) && Lineage(w, after)
  {
    TablesStayOk(w, call, outage, ttl);
    hide TableOk, ParseUserId, NormalizeEmail, TrimSpace, SessionStore.Indexed;
    TimeContinues(w, Apply(w, call, outage, ttl).0, ttl);
  }

  lemma ChangeContinues(w: World, call: Call, outage: Outage, ttl: Lifetimes)
    requires SessionsOk(w, ttl) && (call.DeleteUser? || call.AssignRole? || call.RevokeRole?)
    ensures var after := Apply(w, call, outage, ttl).0; SessionsOk(after, ttl) && Lineage(w, after)
  {
    hide TableOk, TrimSpace, ToLower, AfterRevocation, SessionStore.Indexed, UserTable.AssignRole, UserTable.RevokeRole,
      UserTable.DeleteUser;
    var id := TrimSpace(call.id);
    TimeContinues(w, w, ttl);
    if call.DeleteUser? {
      DeleteKeepsTable(w.table, id);
      RevocationContinues(w, id, outage, table => UserTable.DeleteUser(table, id), ttl);
    } else {
      var role := ToLower(TrimSpace(call.role));
      GrantsKeepTable(w.table, id, role);
      var assign := call.AssignRole?;
      RevocationContinues(w, id, outage, table =>
        if assign then UserTable.AssignRole(table, id, role) else UserTable.RevokeRole(table, id, role), ttl);
    }
  }

  lemma TokenCallContinues(w: World, call: Call, outage: Outage, ttl: Lifetimes)
    requires SessionsOk(w, ttl) && (call.ValidateToken? || call.Logout? || call.LogoutAll?)
    ensures var after := Apply(w, call, outage, ttl).0; SessionsOk(after, ttl) && Lineage(w, after)
  {
    hide TableOk, SessionStore.Indexed, ValidateUnder, SessionStore.Delete, SessionStore.DeleteAllForUser, Lineage,
      SessionsOk;
    var expected := if call.ValidateToken? then None else Some(Access);
    ValidationContinues(w, call.token, expected, outage, ttl);
    var checked := ValidateUnder(w, call.token, expected, outage).0;
    DeletionContinues(checked, call.token.sessionId, ttl);
    WipeContinues(checked, call.token.subject, ttl);
    LineageComposes(w, checked,
      checked.(store := SessionStore.Delete(checked.store, checked.now, call.token.sessionId)));
    LineageComposes(w, checked,
      checked.(store := SessionStore.DeleteAllForUser(checked.store, checked.now, call.token.subject).0));
  }

  lemma CallContinues(w: World, call: Call, outage: Outage, ttl: Lifetimes)
    requires SessionsOk(w, ttl) && Possible(w, call)
    ensures var after := Apply(w, call, outage, ttl).0; SessionsOk(after, ttl) && Lineage(w, after)
  {
    hide Apply, SessionsOk, Lineage;
    match call
    case Authenticate(_, _, _) => LoginContinues(w, call, outage, ttl);
    case RefreshToken(_, _) => RefreshContinues(w, call, outage, ttl);
    case ValidateToken(_) => TokenCallContinues(w, call, outage, ttl);
    case Logout(_) => TokenCallContinues(w, call, outage, ttl);
    case LogoutAll(_) => TokenCallContinues(w, call, outage, ttl);
    case DeleteUser(_) => ChangeContinues(w, call, outage, ttl);
    case AssignRole(_, _) => ChangeContinues(w, call, outage, ttl);
    case RevokeRole(_, _) => ChangeContinues(w, call, outage, ttl);
    case _ => TableCallContinues(w, call, outage, ttl);
  }

  /** Over any run of calls a session that is found before and after keeps its id, user and
      creation time, and its expiry does not move back; and one that is gone stays gone. */
  lemma {:induction false} SessionsContinue(w: World, steps: seq<Step>, ttl: Lifetimes)
    requires SessionsOk(w, ttl) && CanRun(w, steps, ttl)
    ensures SessionsOk(After(w, steps, ttl), ttl) && Lineage(w, After(w, steps, ttl))
    decreases |steps|
  {
    hide Apply, SessionsOk, Possible, Lineage;
    if steps == [] {
      assert Lineage(w, w) by { Reflexive(w); }
    } else {
      var next := Apply(w, steps[0].0, steps[0].1, ttl).0;
      CallContinues(w, steps[0].0, steps[0].1, ttl);
      SessionsContinue(next, steps[1..], ttl);
      LineageComposes(w, next, After(next, steps[1..], ttl));
    }
  }

  lemma Reflexive(w: World)
    ensures Lineage(w, w)
  {
  }

  lemma InitialSessions(w: World, ttl: Lifetimes)
    requires Initial(w) && ttl.Valid()
    ensures SessionsOk(w, ttl)
  {
    hide TableOk;
  }
}
