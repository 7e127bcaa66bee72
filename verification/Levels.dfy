/** The two levels agree: a call whose commands are not interleaved with others' does to
    the sessions, and answers, what the atomic call of the service does and answers. */
module Levels {
  import opened Domain
  import opened Keyspace
  import opened Text
  import opened Tokens
  import opened UserTable
  import opened Service
  import opened Answers
  import opened SessionLineage
  import Effects
  import SessionStore
  import P = Protocol
  import I = ProtocolInvariant
  import T = ProtocolTheorems
  import C = ProtocolCalls

  /** The same clock, the same store, the same tokens. */
  predicate Same(s: P.State, w: World) {
    w.now == s.core.now && w.store == s.core.store && w.signed == s.core.signed
  }

  /** Both stores show the same sessions, those aside whose time is up. */
  ghost predicate ShowSame(a: P.Core, b: World) {
    a.now == b.now &&
    forall id :: Unexpired(a.store, a.now, id) == Unexpired(b.store, b.now, id)
  }

  function Unexpired(store: Store, now: int, id: string): Option<AuthSession> {
    var found := Find(store, now, id);
    if found.Some? && now <= found.value.expiresAt then found else None
  }

  lemma AcceptedIffAcceptable(s: P.State, w: World, t: Claims)
    requires Same(s, w)
    ensures T.Accepted(s.core, t) <==> Acceptable(w, t)
  {
  }

  // ---- refused tokens ----

  /** A call that refuses its token shows the same unexpired sessions as before. */
  lemma RefusedShowsSame(w: World, t: Claims, expected: Option<TokenType>, ttl: Lifetimes)
    requires SessionStore.Indexed(w.store, w.now, ttl.refresh)
    ensures var after := ValidateUnder(w, t, expected, Healthy).0;
      after.now == w.now && forall id :: Unexpired(after.store, w.now, id) == Unexpired(w.store, w.now, id)
  {
    hide Parses, Fits, SessionStore.Get;
    SessionStore.GetIsExact(w.store, w.now, t.sessionId, ttl.refresh);
    if t.sessionId in w.store.sessions {
      SessionStore.KeyIsId(w.store, w.now, ttl.refresh, t.sessionId);
    }
    hide SessionStore.Indexed;
  }

  lemma RefusedAtCommands(s: P.State, after: P.Core, id: string)
    requires C.Unchanged(s.core, after) || (C.FindsExpired(s.core, id) && C.Deleted(s.core, after, id))
    ensures after.now == s.core.now
    ensures forall i :: Unexpired(after.store, after.now, i) == Unexpired(s.core.store, s.core.now, i)
  {
  }

  // ---- Logout and LogoutAll ----

  lemma LogoutAgrees(
    s: P.State, w: World, c: nat, t: Claims, answer: C.Answer, expiryAborts: bool, ttl: Lifetimes)
    requires C.Ready(s, c, t, ttl) && Same(s, w) && SessionStore.Indexed(w.store, w.now, ttl.refresh)
    ensures var (after, reply) := Apply(w, Call.Logout(t), Healthy, ttl);
      && ShowSame(C.Alone(s, c, P.Leave, t, answer, expiryAborts, ttl).core, after)
      && (reply == Done <==> T.Accepted(s.core, t) && t.kind == Access)
  {
    hide C.Ready, C.Alone, Acceptable, T.Accepted, Find, SessionStore.Indexed, Validate;
    AcceptedIffAcceptable(s, w, t);
    TokenCallAnswers(w, Call.Logout(t), Healthy, ttl);
    if T.Accepted(s.core, t) && t.kind == Access {
      C.LogoutAlone(s, c, t, answer, expiryAborts, ttl);
      Effects.LogoutEnds(w, t, Healthy, ttl);
      AloneClock(s, c, P.Leave, t, answer, expiryAborts, ttl);
    } else {
      C.RefusedAlone(s, c, P.Leave, t, answer, expiryAborts, ttl);
      RefusedAtCommands(s, C.Alone(s, c, P.Leave, t, answer, expiryAborts, ttl).core, t.sessionId);
      RefusedShowsSame(w, t, Some(Access), ttl);
      ValidatesIff(w, t, Some(Access));
    }
  }

  /** A call run alone takes no time. */
  lemma AloneClock(
    s: P.State, c: nat, goal: P.Goal, t: Claims, answer: C.Answer, expiryAborts: bool, ttl: Lifetimes)
    ensures C.Alone(s, c, goal, t, answer, expiryAborts, ttl).core.now == s.core.now
  {
    StepsClock(P.Next(s, P.Present(c, goal, t), ttl), c, answer, expiryAborts, 5, ttl);
  }

  lemma {:induction false} StepsClock(s: P.State, c: nat, answer: C.Answer, expiryAborts: bool, n: nat, ttl: Lifetimes)
    ensures C.OwnSteps(s, c, answer, expiryAborts, n, ttl).core.now == s.core.now
  {
    if n > 0 {
      StepsClock(s, c, answer, expiryAborts, n - 1, ttl);
      StepClock(C.OwnSteps(s, c, answer, expiryAborts, n - 1, ttl), c, answer, expiryAborts, ttl);
    }
  }

  lemma StepClock(s: P.State, c: nat, answer: C.Answer, expiryAborts: bool, ttl: Lifetimes)
    ensures C.OwnStep(s, c, answer, expiryAborts, ttl).core.now == s.core.now
  {
    if !P.PcOf(s, c).Idle? && !P.PcOf(s, c).Looking? {
      CommandClock(s, c, P.PcOf(s, c), expiryAborts, ttl);
    }
    hide P.CommandStep;
  }

  lemma CommandClock(s: P.State, c: nat, pc: P.Pc, expiryAborts: bool, ttl: Lifetimes)
    ensures P.CommandStep(s, c, pc, expiryAborts, ttl).core.now == s.core.now
  {
    hide Fits, Drop, Put, Erase;
  }

  /** With every session in its user's index no sweep has missed a live one. */
  lemma IndexedIsUnswept(s: P.State, id: string, ttl: Lifetimes)
    requires T.Reachable(s, ttl) && SessionStore.Indexed(s.core.store, s.core.now, ttl.refresh)
    requires Find(s.core.store, s.core.now, id).Some?
    ensures !I.Swept(s.core, id)
  {
    hide T.Reachable, I.Swept;
    T.MissingFromIndex(s, id, ttl);
    assert SessionStore.Listed(s.core.store, id);
  }

  lemma LogoutAllAgrees(
    s: P.State, w: World, c: nat, t: Claims, answer: C.Answer, expiryAborts: bool, ttl: Lifetimes)
    requires C.Ready(s, c, t, ttl) && Same(s, w) && SessionStore.Indexed(w.store, w.now, ttl.refresh)
    ensures var (after, reply) := Apply(w, Call.LogoutAll(t), Healthy, ttl);
      && ShowSame(C.Alone(s, c, P.LeaveAll, t, answer, expiryAborts, ttl).core, after)
      && (reply == Done <==> T.Accepted(s.core, t) && t.kind == Access)
  {
    hide C.Alone, Acceptable, T.Accepted, Find, SessionStore.Indexed, Validate, I.Swept, T.Reachable;
    AcceptedIffAcceptable(s, w, t);
    TokenCallAnswers(w, Call.LogoutAll(t), Healthy, ttl);
    if T.Accepted(s.core, t) && t.kind == Access {
      forall id | Find(s.core.store, s.core.now, id).Some? ensures !I.Swept(s.core, id) {
        IndexedIsUnswept(s, id, ttl);
      }
      C.LogoutAllAlone(s, c, t, answer, expiryAborts, ttl);
      Effects.LogoutAllEnds(w, t, Healthy, ttl);
      AloneClock(s, c, P.LeaveAll, t, answer, expiryAborts, ttl);
    } else {
      C.RefusedAlone(s, c, P.LeaveAll, t, answer, expiryAborts, ttl);
      RefusedAtCommands(s, C.Alone(s, c, P.LeaveAll, t, answer, expiryAborts, ttl).core, t.sessionId);
      RefusedShowsSame(w, t, Some(Access), ttl);
      ValidatesIff(w, t, Some(Access));
    }
  }

  // ---- RefreshToken ----

  /** What the user lookup of a refresh answers, from the tables. */
  ghost function LookupAnswer(w: World, id: string, draw: Draw): C.Answer {
    var found := FindById(w.table, id);
    if found.Err? then C.Answer(Err(found.error), [], draw.accessId, draw.refreshId)
    else C.Answer(Ok(UserOf(found.value)), RoleNamesOf(w.table, found.value.id), draw.accessId, draw.refreshId)
  }

  lemma RefreshAgrees(
    s: P.State, w: World, c: nat, call: Call, expiryAborts: bool, ttl: Lifetimes)
    requires call.RefreshToken? && Possible(w, call) && call.draw.delay == 0
    requires C.Ready(s, c, call.token, ttl) && Same(s, w) && SessionsOk(w, ttl)
    requires P.Fresh(s.core, [call.draw.accessId, call.draw.refreshId])
    ensures var (after, reply) := Apply(w, call, Healthy, ttl);
      var answer := LookupAnswer(w, call.token.subject, call.draw);
      var ended := C.RefreshEnds(s, call.token, answer, ttl);
      && C.Alone(s, c, P.Renew, call.token, answer, expiryAborts, ttl).ended == s.ended + [P.Ending(call.token, ended)]
      && ShowSame(C.Alone(s, c, P.Renew, call.token, answer, expiryAborts, ttl).core, after)
      && (reply.Pair? <==> ended.Ok?)
      && (reply.Failed? ==> ended == Err(reply.error))
      && (reply.Pair? ==>
          && reply.access == MintToken(ended.value, Access, w.now, ttl)
          && reply.refresh == MintToken(ended.value, Refresh, w.now, ttl))
  {
    hide C.Ready, C.Alone, Acceptable, T.Accepted, Find, SessionStore.Indexed, Apply, ParseUserId, TableOk, MintToken,
      RoleNamesOf, Put;
    var t := call.token;
    var answer := LookupAnswer(w, t.subject, call.draw);
    var end := C.Alone(s, c, P.Renew, t, answer, expiryAborts, ttl).core;
    AcceptedIffAcceptable(s, w, t);
    RefreshAnswers(w, call, Healthy, ttl);
    LookupFinds(w, t.subject);
    AcceptableIsLive(w, t);
    C.RefreshAlone(s, c, t, answer, expiryAborts, ttl);
    AloneClock(s, c, P.Renew, t, answer, expiryAborts, ttl);
    var (after, reply) := Apply(w, call, Healthy, ttl);
    if reply.Pair? {
      var row, current := RefreshStores(w, call, Healthy, ttl);
      assert C.RefreshEnds(s, t, answer, ttl) ==
             Ok(RenewedSession(w, current, row, RoleNamesOf(w.table, row.id), call.draw, ttl));
      PutShows(w.store, after.store, w.now, C.RefreshEnds(s, t, answer, ttl).value, ttl);
    } else {
      RefusedRefresh(w, call, ttl);
      if !T.Accepted(s.core, t) || t.kind != Refresh {
        C.RefusedAlone(s, c, P.Renew, t, answer, expiryAborts, ttl);
        RefusedAtCommands(s, end, t.sessionId);
      }
    }
  }

  lemma PutShows(store: Store, after: Store, now: int, session: AuthSession, ttl: Lifetimes)
    requires after == Put(store, now, session, ttl.refresh) && ttl.Valid()
    ensures forall id :: Find(after, now, id) == if id == session.id then Some(session) else Find(store, now, id)
  {
  }

  lemma LookupFinds(w: World, id: string)
    requires TableOk(w.table)
    ensures var found := FindById(w.table, id);
      && (found.Ok? <==> ParseUserId(id).Some? && Present(w.table, ParseUserId(id).value))
      && (found.Ok? ==>
          && found.value == w.table.rows[ParseUserId(id).value] && found.value.id == ParseUserId(id).value != ""
          && (StatusOf(found.value) == Active <==> found.value.isActive))
  {
    hide ParseUserId, NormalizeEmail;
    if FindById(w.table, id).Ok? {
      FoundUnderId(w.table, id);
    }
  }

  lemma AcceptableIsLive(w: World, t: Claims)
    ensures Acceptable(w, t) ==>
              Find(w.store, w.now, t.sessionId) == Some(w.store.sessions[t.sessionId].value)
              && w.now <= w.store.sessions[t.sessionId].deadline
              && w.store.sessions[t.sessionId].value.userId == t.subject
  {
  }

  /** A refresh that fails shows the same unexpired sessions as before. */
  lemma RefusedRefresh(w: World, call: Call, ttl: Lifetimes)
    requires call.RefreshToken? && SessionsOk(w, ttl) && call.draw.delay == 0
    requires !Apply(w, call, Healthy, ttl).1.Pair?
    ensures var after := Apply(w, call, Healthy, ttl).0;
      after.now == w.now && forall id :: Unexpired(after.store, w.now, id) == Unexpired(w.store, w.now, id)
  {
    hide Apply, ValidateUnder, SessionsOk, Unexpired;
    assert SessionStore.Indexed(w.store, w.now, ttl.refresh) by { SessionsIndexed(w, ttl); }
    RefusedShowsSame(w, call.token, Some(Refresh), ttl);
    FailureKeepsChecked(w, call, ttl);
  }

  lemma SessionsIndexed(w: World, ttl: Lifetimes)
    requires SessionsOk(w, ttl)
    ensures SessionStore.Indexed(w.store, w.now, ttl.refresh)
  {
  }

  /** Once the token has been checked, a refresh that fails touches no session. */
  lemma FailureKeepsChecked(w: World, call: Call, ttl: Lifetimes)
    requires call.RefreshToken? && SessionsOk(w, ttl) && call.draw.delay == 0
    requires !Apply(w, call, Healthy, ttl).1.Pair?
    ensures var after := Apply(w, call, Healthy, ttl).0;
            after.now == w.now && after.store == ValidateUnder(w, call.token, Some(Refresh), Healthy).0.store
  {
    hide ParseUserId, Apply, ValidateUnder, SessionsOk, Renew;
    ValidationClock(w, call.token);
    RefreshCases(w, call.token, call.draw, Healthy, ttl);
    ValidationContinues(w, call.token, Some(Refresh), Healthy, ttl);
    var (checked, current) := ValidateUnder(w, call.token, Some(Refresh), Healthy);
    if current.Ok? && FindById(w.table, call.token.subject).Ok? {
      FailedRenewal(w, FindById(w.table, call.token.subject).value, current.value, call.token.id, call.draw, ttl);
    }
  }

  lemma ValidationClock(w: World, token: Claims)
    ensures ValidateUnder(w, token, Some(Refresh), Healthy).0.now == w.now
  {
    hide SessionStore.Get, Parses, Fits;
  }

  lemma FailedRenewal(w: World, row: Row, current: AuthSession, refreshId: string, draw: Draw, ttl: Lifetimes)
    requires draw.delay == 0
    ensures Renew(w, row, current, refreshId, draw, Healthy, ttl).1.Pair? ||
            (var after := Renew(w, row, current, refreshId, draw, Healthy, ttl).0;
             after.now == w.now && after.store == w.store)
  {
    hide RoleNamesOf, Put;
  }

  // ---- Authenticate ----

  /** A login that the service grants stores and signs what a login's commands store and sign. */
  lemma LoginAgrees(
    s: P.State, w: World, c: nat, call: Call, expiryAborts: bool, ttl: Lifetimes) returns (row: Row)
    requires call.Authenticate? && Possible(w, call) && call.draw.delay == 0
    requires T.Reachable(s, ttl) && P.PcOf(s, c) == P.Idle && Same(s, w) && SessionsOk(w, ttl)
    requires P.Fresh(s.core, [call.draw.sessionId, call.draw.accessId, call.draw.refreshId])
    requires Apply(w, call, Healthy, ttl).1.Pair?
    ensures FindByEmail(w.table, NormalizeEmail(call.email)) == Ok(row)
    ensures var (after, reply) := Apply(w, call, Healthy, ttl);
      var roles := RoleNamesOf(w.table, row.id);
      var login := P.Login(c, UserOf(row), roles, call.draw.sessionId, call.draw.accessId, call.draw.refreshId);
      var answer := LookupAnswer(w, row.id, call.draw);
      var end := C.OwnSteps(P.Next(s, login, ttl), c, answer, expiryAborts, 5, ttl);
      && ShowSame(end.core, after)
      && (row.email != "" ==> T.Accepted(end.core, reply.access) && T.Accepted(end.core, reply.refresh))
  {
    hide T.Reachable, Apply, NormalizeEmail, FindByEmail, RoleNamesOf, TableOk, SessionStore.Indexed, MintToken,
      T.Accepted, Put, Find, C.OwnSteps, P.Next;
    row := LoginStores(w, call, Healthy, ttl);
    assert row.id != "" by { EmailRowHasId(w.table, NormalizeEmail(call.email)); }
    var (after, reply) := Apply(w, call, Healthy, ttl);
    var roles := RoleNamesOf(w.table, row.id);
    var login := P.Login(c, UserOf(row), roles, call.draw.sessionId, call.draw.accessId, call.draw.refreshId);
    var answer := LookupAnswer(w, row.id, call.draw);
    AnswerDraws(w, row.id, call.draw);
    C.LoginAlone(s, c, UserOf(row), roles, call.draw.sessionId, answer, expiryAborts, ttl);
    PutShows(w.store, after.store, w.now, OpenedSession(w, row, roles, call.draw, ttl), ttl);
    StepsClock(P.Next(s, login, ttl), c, answer, expiryAborts, 5, ttl);
    LoginClock(s, login, ttl);
  }

  lemma AnswerDraws(w: World, id: string, draw: Draw)
    ensures LookupAnswer(w, id, draw).accessId == draw.accessId && LookupAnswer(w, id, draw).refreshId == draw.refreshId
  {
  }

  lemma LoginClock(s: P.State, login: P.Action, ttl: Lifetimes)
    requires login.Login?
    ensures P.Next(s, login, ttl).core.now == s.core.now
  {
  }

  lemma EmailRowHasId(table: Table, email: string)
    requires TableOk(table) && FindByEmail(table, email).Ok?
    ensures FindByEmail(table, email).value.id != ""
  {
    hide NormalizeEmail;
    var row := FindByEmail(table, email).value;
    assert ParseUserId(row.id) == Some(row.id);
  }
}
