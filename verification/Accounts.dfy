/** What whole runs of service calls, however users are named, do to accounts and to
    the tokens they issue. */
module Accounts {
  import opened Domain
  import opened Keyspace
  import opened Text
  import opened Tokens
  import opened UserTable
  import opened Service
  import SessionStore

  // ---- the tables over runs ----

  lemma TablesStayOk(w: World, call: Call, outage: Outage, ttl: Lifetimes)
    requires TableOk(w.table) && Possible(w, call)
    ensures TableOk(Apply(w, call, outage, ttl).0.table)
  {
    hide TableOk, ParseUserId, NormalizeEmail, TrimSpace, ToLower, SessionStore.Get, SessionStore.DeleteAllForUser,
      RoleNamesOf;
    match call
    case CreateUser(_, _, _, _, _, _) =>
      NormalizeEmailIsStable(call.email);
      var user := User(
        "", NormalizeEmail(call.email), PasswordHash(call.password), TrimSpace(call.firstName),
        TrimSpace(call.lastName), TrimSpace(call.phone), Active, [Role("", "customer")]);
      CreateKeepsTable(w.table, user, call.newId);
    case UpdateUser(_, _, _, _) => UpdateStaysOk(w, call, outage);
    case DeleteUser(id) => DeleteKeepsTable(w.table, TrimSpace(id));
    case AssignRole(id, role) => GrantsKeepTable(w.table, TrimSpace(id), ToLower(TrimSpace(role)));
    case RevokeRole(id, role) => GrantsKeepTable(w.table, TrimSpace(id), ToLower(TrimSpace(role)));
    case _ =>
  }

  lemma UpdateStaysOk(w: World, call: Call, outage: Outage)
    requires TableOk(w.table) && call.UpdateUser?
    ensures TableOk(UpdateUserCall(w, call, outage).0.table)
  {
    hide ParseUserId, NormalizeEmail, TrimSpace;
    var found := FindById(w.table, TrimSpace(call.id));
    if found.Ok? {
      var user := Overlaid(found.value, call);
      UpdateKeepsTable(w.table, user);
    }
  }

  /** Emails stay normalized and unique over all rows, deleted ones included, through
      any run of calls. */
  lemma {:induction false} TablesStayOkOverRuns(w: World, steps: seq<Step>, ttl: Lifetimes)
    requires TableOk(w.table) && CanRun(w, steps, ttl)
    ensures TableOk(After(w, steps, ttl).table)
    decreases |steps|
  {
    hide TableOk, Apply, Possible;
    if steps != [] {
      TablesStayOk(w, steps[0].0, steps[0].1, ttl);
      TablesStayOkOverRuns(Apply(w, steps[0].0, steps[0].1, ttl).0, steps[1..], ttl);
    }
  }

  /** What the tables make of a role change. */
  ghost function ChangeRole(table: Table, call: Call): (Table, Outcome<()>)
    requires call.AssignRole? || call.RevokeRole?
  {
    var id, role := TrimSpace(call.id), ToLower(TrimSpace(call.role));
    if id == "" || role == "" then (table, Err(InvalidInput))
    else if call.AssignRole? then UserTable.AssignRole(table, id, role)
    else UserTable.RevokeRole(table, id, role)
  }

  /** The tables accept the role change, and then the user cannot be read back. */
  ghost predicate LosesAnswer(table: Table, call: Call, outage: Outage) {
    (call.AssignRole? || call.RevokeRole?) && ChangeRole(table, call).1.Ok? && outage == UserLookupDown
  }

  lemma AcceptedChangeShows(table: Table, call: Call)
    requires call.AssignRole? || call.RevokeRole?
    ensures ChangeRole(table, call).1.Ok? <==> ChangeRole(table, call).0 != table
  {
    hide ParseUserId, RoleNamed, TrimSpace, ToLower;
  }

  /** A call that fails shows no session that was not there, and it changes the tables if
      and only if it is a role change that they accept and whose answer is lost because
      the user cannot be read back; then they have changed as the call asked. */
  lemma FailureChangesTablesIff(w: World, call: Call, outage: Outage, ttl: Lifetimes)
    requires Apply(w, call, outage, ttl).1.Failed?
    ensures var after := Apply(w, call, outage, ttl).0;
      && (after.table != w.table <==> LosesAnswer(w.table, call, outage))
      && (LosesAnswer(w.table, call, outage) ==> after.table == ChangeRole(w.table, call).0)
      && ShowsNothingNew(w, after)
  {
    hide LosesAnswer, ChangeRole, ShowsNothingNew;
    match call
    case AssignRole(_, _) => FailedRoleChange(w, call, outage, ttl);
    case RevokeRole(_, _) => FailedRoleChange(w, call, outage, ttl);
    case CreateUser(_, _, _, _, _, _) => FailedTableCall(w, call, outage, ttl);
    case UpdateUser(_, _, _, _) => FailedTableCall(w, call, outage, ttl);
    case DeleteUser(_) => FailedTableCall(w, call, outage, ttl);
    case Authenticate(_, _, _) => FailedLogin(w, call, outage, ttl);
    case RefreshToken(_, _) => FailedRefresh(w, call, outage, ttl);
    case _ => FailedTokenCall(w, call, outage, ttl);
  }

  ghost predicate ShowsNothingNew(w: World, after: World) {
    forall id :: Find(after.store, after.now, id).Some? ==> Find(after.store, after.now, id) == Find(w.store, w.now, id)
  }

  lemma FailedRoleChange(w: World, call: Call, outage: Outage, ttl: Lifetimes)
    requires (call.AssignRole? || call.RevokeRole?) && Apply(w, call, outage, ttl).1.Failed?
    ensures var after := Apply(w, call, outage, ttl).0;
      && (after.table != w.table <==> LosesAnswer(w.table, call, outage))
      && (LosesAnswer(w.table, call, outage) ==> after.table == ChangeRole(w.table, call).0)
      && ShowsNothingNew(w, after)
  {
    hide ParseUserId, TrimSpace, ToLower, UserTable.AssignRole, UserTable.RevokeRole;
    AcceptedChangeShows(w.table, call);
  }

  lemma FailedTableCall(w: World, call: Call, outage: Outage, ttl: Lifetimes)
    requires (call.CreateUser? || call.UpdateUser? || call.DeleteUser?) && Apply(w, call, outage, ttl).1.Failed?
    ensures var after := Apply(w, call, outage, ttl).0;
      after.table == w.table && !LosesAnswer(w.table, call, outage) && ShowsNothingNew(w, after)
  {
    hide ParseUserId, NormalizeEmail, TrimSpace;
  }

  lemma FailedLogin(w: World, call: Call, outage: Outage, ttl: Lifetimes)
    requires call.Authenticate? && Apply(w, call, outage, ttl).1.Failed?
    ensures var after := Apply(w, call, outage, ttl).0;
      after.table == w.table && !LosesAnswer(w.table, call, outage) && ShowsNothingNew(w, after)
  {
    hide NormalizeEmail, FindByEmail, Apply, RoleNamesOf;
    LoginCases(w, call.email, call.password, call.draw, outage, ttl);
  }

  lemma FailedRefresh(w: World, call: Call, outage: Outage, ttl: Lifetimes)
    requires call.RefreshToken? && Apply(w, call, outage, ttl).1.Failed?
    ensures var after := Apply(w, call, outage, ttl).0;
      after.table == w.table && !LosesAnswer(w.table, call, outage) && ShowsNothingNew(w, after)
  {
    hide ParseUserId, Apply, RoleNamesOf, Validate;
    RefreshCases(w, call.token, call.draw, outage, ttl);
    ValidateForgets(w, call.token, Some(Refresh));
  }

  lemma FailedTokenCall(w: World, call: Call, outage: Outage, ttl: Lifetimes)
    requires (call.ValidateToken? || call.Logout? || call.LogoutAll? || call.Wait?)
             && Apply(w, call, outage, ttl).1.Failed?
    ensures var after := Apply(w, call, outage, ttl).0;
      after.table == w.table && !LosesAnswer(w.table, call, outage) && ShowsNothingNew(w, after)
  {
    hide Validate;
    if !call.Wait? {
      ValidateForgets(w, call.token, if call.ValidateToken? then None else Some(Access));
    }
  }

  lemma ValidateForgets(w: World, token: Claims, expected: Option<TokenType>)
    ensures var after := Validate(w, token, expected).0;
      && after == w.(store := after.store)
      && (forall id :: Find(after.store, w.now, id).Some? ==> Find(after.store, w.now, id) == Find(w.store, w.now, id))
  {
    hide Parses, Fits;
    var found := Find(w.store, w.now, token.sessionId);
    if found.Some? && Find(w.store, w.now, found.value.id).Some? {
      DropEffect(w.store, w.now, found.value.id, Find(w.store, w.now, found.value.id).value);
    }
  }

  // ---- deletion is for good ----

  predicate Gone(table: Table, id: string, email: string) {
    id in table.rows && table.rows[id].deleted && table.rows[id].email == email
  }

  lemma GoneStays(w: World, call: Call, outage: Outage, ttl: Lifetimes, id: string, email: string)
    requires TableOk(w.table) && Gone(w.table, id, email)
    ensures Gone(Apply(w, call, outage, ttl).0.table, id, email)
  {
    hide TableOk, Gone, TrimSpace, ToLower;
    match call
    case CreateUser(_, _, _, _, _, _) => GoneForCreate(w, call, outage, id, email);
    case UpdateUser(_, _, _, _) => GoneForUpdate(w, call, outage, id, email);
    case DeleteUser(rawId) => GoneForChange(w.table, TrimSpace(rawId), "", id, email);
    case AssignRole(rawId, role) => GoneForChange(w.table, TrimSpace(rawId), ToLower(TrimSpace(role)), id, email);
    case RevokeRole(rawId, role) => GoneForChange(w.table, TrimSpace(rawId), ToLower(TrimSpace(role)), id, email);
    case _ => SessionCallsKeepTable(w, call, outage, ttl);
  }

  lemma SessionCallsKeepTable(w: World, call: Call, outage: Outage, ttl: Lifetimes)
    requires !call.CreateUser? && !call.UpdateUser? && !call.DeleteUser? && !call.AssignRole? && !call.RevokeRole?
    ensures Apply(w, call, outage, ttl).0.table == w.table
  {
    hide NormalizeEmail, ParseUserId, RoleNamesOf, Parses, Fits, SessionStore.Get;
  }

  lemma GoneForCreate(w: World, call: Call, outage: Outage, id: string, email: string)
    requires call.CreateUser? && Gone(w.table, id, email)
    ensures Gone(CreateUserCall(w, call, outage).0.table, id, email)
  {
    hide NormalizeEmail, TrimSpace, ParseUserId;
  }

  lemma GoneForUpdate(w: World, call: Call, outage: Outage, id: string, email: string)
    requires call.UpdateUser? && Gone(w.table, id, email)
    ensures Gone(UpdateUserCall(w, call, outage).0.table, id, email)
  {
    hide TrimSpace, ParseUserId;
  }

  lemma GoneForChange(table: Table, rawId: string, role: string, id: string, email: string)
    requires TableOk(table) && Gone(table, id, email)
    ensures Gone(UserTable.DeleteUser(table, rawId).0, id, email)
    ensures Gone(UserTable.AssignRole(table, rawId, role).0, id, email)
    ensures Gone(UserTable.RevokeRole(table, rawId, role).0, id, email)
  {
    hide ParseUserId, RoleNamed, TableOk;
    if FindById(table, rawId).Ok? {
      FoundIsPresent(table, rawId);
    }
  }

  lemma FoundIsPresent(table: Table, id: string)
    requires TableOk(table) && FindById(table, id).Ok?
    ensures Present(table, FindById(table, id).value.id)
  {
    hide ParseUserId, NormalizeEmail;
  }

  lemma {:induction false} GoneStaysOverRuns(w: World, steps: seq<Step>, ttl: Lifetimes, id: string, email: string)
    requires TableOk(w.table) && CanRun(w, steps, ttl) && Gone(w.table, id, email)
    ensures Gone(After(w, steps, ttl).table, id, email)
    decreases |steps|
  {
    hide Apply, Possible, Gone, TableOk;
    if steps != [] {
      TablesStayOk(w, steps[0].0, steps[0].1, ttl);
      GoneStays(w, steps[0].0, steps[0].1, ttl, id, email);
      GoneStaysOverRuns(Apply(w, steps[0].0, steps[0].1, ttl).0, steps[1..], ttl, id, email);
    }
  }

  /** Once an account is deleted, no run of calls lets its email log in or register again. */
  lemma DeletedEmailIsBurnt(
    w: World, steps: seq<Step>, ttl: Lifetimes, id: string, call: Call, outage: Outage)
    requires TableOk(w.table) && CanRun(w, steps, ttl)
    requires id in w.table.rows && w.table.rows[id].deleted
    requires call.Authenticate? || call.CreateUser?
    requires NormalizeEmail(call.email) == w.table.rows[id].email
    ensures Apply(After(w, steps, ttl), call, outage, ttl).1.Failed?
  {
    hide TableOk, CanRun, After, NormalizeEmail, TrimSpace;
    TablesStayOkOverRuns(w, steps, ttl);
    GoneStaysOverRuns(w, steps, ttl, id, w.table.rows[id].email);
    GoneIsNotFound(After(w, steps, ttl).table, id, w.table.rows[id].email);
    GoneClashes(After(w, steps, ttl).table, id, w.table.rows[id].email);
  }

  lemma GoneIsNotFound(table: Table, id: string, email: string)
    requires TableOk(table) && Gone(table, id, email)
    ensures FindByEmail(table, email) == Err(NotFound)
  {
  }

  lemma GoneClashes(table: Table, id: string, email: string)
    requires Gone(table, id, email)
    ensures forall newId, phone :: newId in table.rows || Clashes(table, newId, email, phone)
  {
  }

  // ---- issue and validate ----

  /** The pair of a stored session: each token validates, to that session and only as
      its own type, exactly while its window is open. */
  lemma StoredPair(w: World, session: AuthSession, mint: int, ttl: Lifetimes)
    requires ttl.Valid() && mint <= w.now
    requires session.expiresAt == mint + ttl.refresh
    requires session.id != "" && session.userId != "" && session.email != ""
    requires session.accessId != "" && session.refreshId != "" && session.accessId != session.refreshId
    requires session.id in w.store.sessions && w.store.sessions[session.id].value == session
    requires w.store.sessions[session.id].deadline >= session.expiresAt
    requires MintToken(session, Access, mint, ttl) in w.signed && MintToken(session, Refresh, mint, ttl) in w.signed
    ensures (Validate(w, MintToken(session, Access, mint, ttl), Some(Access)).1 == Ok(session))
            <==> w.now <= mint + ttl.refresh && w.now < Truncate(mint + ttl.access) + LEEWAY
    ensures (Validate(w, MintToken(session, Refresh, mint, ttl), Some(Refresh)).1 == Ok(session))
            <==> w.now <= mint + ttl.refresh
    ensures Validate(w, MintToken(session, Access, mint, ttl), Some(Refresh)).1.Err?
    ensures Validate(w, MintToken(session, Refresh, mint, ttl), Some(Access)).1.Err?
  {
    hide SessionStore.Delete;
  }

  predicate BelongsTo(token: Claims, kind: TokenType, id: string, sessionId: string, row: Row, roles: seq<string>) {
    && token.kind == kind && token.id == id && token.sessionId == sessionId
    && token.subject == row.id && token.email == row.email && token.roles == roles
  }

  /** Issue and validate: whatever the roles, a login returns two tokens with the user's
      id, email and sorted role names, each with its own id and type; until another call
      touches the session, the refresh token validates exactly for its lifetime, and the
      access token exactly for its own, plus the leeway, within it. */
  lemma LoginRoundTrip(w: World, call: Call, outage: Outage, ttl: Lifetimes, wait: nat)
    requires ttl.Valid() && w.now > ZERO_TIME && TableOk(w.table)
    requires call.Authenticate? && Possible(w, call)
    requires Apply(w, call, outage, ttl).1.Pair?
    ensures var (after, pair) := Apply(w, call, outage, ttl);
      var row := FindByEmail(w.table, NormalizeEmail(call.email)).value;
      var later := after.(now := after.now + wait);
      var roles := RoleNamesOf(w.table, row.id);
      && BelongsTo(pair.access, Access, call.draw.accessId, call.draw.sessionId, row, roles)
      && BelongsTo(pair.refresh, Refresh, call.draw.refreshId, call.draw.sessionId, row, roles)
      && (Validate(later, pair.access, Some(Access)).1.Ok?
          <==> later.now <= w.now + ttl.refresh && later.now < Truncate(w.now + ttl.access) + LEEWAY)
      && (Validate(later, pair.refresh, Some(Refresh)).1.Ok? <==> later.now <= w.now + ttl.refresh)
      && Validate(later, pair.access, Some(Refresh)).1.Err?
      && Validate(later, pair.refresh, Some(Access)).1.Err?
  {
    hide TableOk, NormalizeEmail, RoleNamesOf, FindByEmail, Validate, Parses;
    var draw := call.draw;
    var ids := [draw.sessionId, draw.accessId, draw.refreshId];
    assert ids[0] == draw.sessionId && ids[1] == draw.accessId && ids[2] == draw.refreshId;
    var row := FindByEmail(w.table, NormalizeEmail(call.email)).value;
    RowOfEmail(w.table, NormalizeEmail(call.email));
    var session := Mint(w, row, draw.sessionId, w.now, draw, ttl).1;
    var after := Apply(w, call, outage, ttl).0;
    StoredPair(after.(now := after.now + wait), session, w.now, ttl);
    OnlyThatSession(after.(now := after.now + wait), MintToken(session, Access, w.now, ttl), session);
    OnlyThatSession(after.(now := after.now + wait), MintToken(session, Refresh, w.now, ttl), session);
  }

  lemma RowOfEmail(table: Table, email: string)
    requires TableOk(table) && FindByEmail(table, email).Ok?
    ensures var row := FindByEmail(table, email).value; row.id != "" && row.email == email
  {
    var row := FindByEmail(table, email).value;
    assert ParseUserId(row.id) == Some(row.id);
  }

  /** Validation can only answer with the session that the store holds. */
  lemma OnlyThatSession(w: World, token: Claims, session: AuthSession)
    requires token.sessionId in w.store.sessions && w.store.sessions[token.sessionId].value == session
    ensures forall kind :: Validate(w, token, Some(kind)).1.Ok? ==> Validate(w, token, Some(kind)).1 == Ok(session)
  {
  }

  /** A refresh replaces both tokens: the new pair carries the user's present email and
      roles and the same session, and the presented token is refused from then on. */
  lemma RefreshRoundTrip(w: World, call: Call, outage: Outage, ttl: Lifetimes, wait: nat) returns (row: Row)
    requires ttl.Valid() && w.now > ZERO_TIME && TableOk(w.table)
    requires SessionStore.Indexed(w.store, w.now, ttl.refresh)
    requires call.RefreshToken? && Possible(w, call) && call.token.id in w.used
    requires Apply(w, call, outage, ttl).1.Pair?
    ensures FindById(w.table, call.token.subject) == Ok(row)
    ensures var (after, pair) := Apply(w, call, outage, ttl);
      var later := after.(now := after.now + wait);
      var roles := RoleNamesOf(w.table, row.id);
      && BelongsTo(pair.access, Access, call.draw.accessId, call.token.sessionId, row, roles)
      && BelongsTo(pair.refresh, Refresh, call.draw.refreshId, call.token.sessionId, row, roles)
      && (row.email != "" ==>
          && (Validate(later, pair.access, Some(Access)).1.Ok?
              <==> later.now <= w.now + ttl.refresh && later.now < Truncate(w.now + ttl.access) + LEEWAY)
          && (Validate(later, pair.refresh, Some(Refresh)).1.Ok? <==> later.now <= w.now + ttl.refresh))
      && Validate(later, call.token, None).1.Err?
  {
    hide TableOk, ParseUserId, RoleNamesOf, SessionStore.Indexed, Renew, Validate, Apply, BelongsTo;
    RefreshCases(w, call.token, call.draw, outage, ttl);
    RefreshTokenIsCurrent(w, call.token, ttl);
    row := FindById(w.table, call.token.subject).value;
    RowHasId(w.table, call.token.subject);
    RenewRoundTrip(w, row, call.token, call.draw, outage, ttl, wait);
  }

  /** A refresh token that validates is the one its session shows. */
  lemma RefreshTokenIsCurrent(w: World, token: Claims, ttl: Lifetimes)
    requires SessionStore.Indexed(w.store, w.now, ttl.refresh)
    ensures var (after, result) := Validate(w, token, Some(Refresh));
      result.Ok? ==>
        && after == w && token.kind == Refresh && token.id != "" && token.sessionId != ""
        && token.sessionId in w.store.sessions && result.value == w.store.sessions[token.sessionId].value
        && result.value.id == token.sessionId && result.value.refreshId == token.id
           && result.value.userId == token.subject
  {
    hide SessionStore.Delete;
    if token.sessionId in w.store.sessions {
      SessionStore.KeyIsId(w.store, w.now, ttl.refresh, token.sessionId);
    }
  }

  lemma RenewRoundTrip(
    w: World, row: Row, token: Claims, draw: Draw, outage: Outage, ttl: Lifetimes, wait: nat)
    requires ttl.Valid() && w.now > ZERO_TIME && row.id != ""
    requires NewIds(w, [draw.accessId, draw.refreshId]) && token.id in w.used && token.kind == Refresh
    requires token.sessionId != "" && token.id != ""
    requires token.sessionId in w.store.sessions && w.store.sessions[token.sessionId].value.id == token.sessionId
    requires Renew(w, row, w.store.sessions[token.sessionId].value, token.id, draw, outage, ttl).1.Pair?
    ensures var (after, pair) := Renew(w, row, w.store.sessions[token.sessionId].value, token.id, draw, outage, ttl);
      var later := after.(now := after.now + wait);
      var roles := RoleNamesOf(w.table, row.id);
      && BelongsTo(pair.access, Access, draw.accessId, token.sessionId, row, roles)
      && BelongsTo(pair.refresh, Refresh, draw.refreshId, token.sessionId, row, roles)
      && (row.email != "" ==>
          && (Validate(later, pair.access, Some(Access)).1.Ok?
              <==> later.now <= w.now + ttl.refresh && later.now < Truncate(w.now + ttl.access) + LEEWAY)
          && (Validate(later, pair.refresh, Some(Refresh)).1.Ok? <==> later.now <= w.now + ttl.refresh))
      && Validate(later, token, None).1.Err?
  {
    hide RoleNamesOf, Validate, Parses;
    var ids := [draw.accessId, draw.refreshId];
    assert ids[0] == draw.accessId && ids[1] == draw.refreshId;
    var current := w.store.sessions[token.sessionId].value;
    var next := Mint(w, row, current.id, current.createdAt, draw, ttl).1;
    var after := Renew(w, row, current, token.id, draw, outage, ttl).0;
    var later := after.(now := after.now + wait);
    if row.email != "" {
      StoredPair(later, next, w.now, ttl);
      OnlyThatSession(later, MintToken(next, Access, w.now, ttl), next);
      OnlyThatSession(later, MintToken(next, Refresh, w.now, ttl), next);
    }
    OtherIdIsRefused(later, token, next);
  }

  /** A token whose id its session does not show is refused. */
  lemma OtherIdIsRefused(w: World, token: Claims, session: AuthSession)
    requires token.sessionId in w.store.sessions && w.store.sessions[token.sessionId].value == session
    requires TokenId(session, token.kind) != token.id
    ensures Validate(w, token, None).1.Err?
  {
  }

  lemma RowHasId(table: Table, id: string)
    requires TableOk(table) && FindById(table, id).Ok?
    ensures FindById(table, id).value.id != ""
  {
  }
}
