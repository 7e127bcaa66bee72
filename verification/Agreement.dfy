/** The email and the roles cached in sessions agree with the tables, over every run
    of calls that name users canonically; and exactly for those. */
module Agreement {
  import opened Domain
  import opened Keyspace
  import opened Text
  import opened Tokens
  import opened UserTable
  import opened Service
  import SessionStore

  /** The user exists, is active, and has this email and these role names now. */
  ghost predicate Describes(table: Table, userId: string, email: string, roles: seq<string>) {
    && Present(table, userId)
    && table.rows[userId].isActive
    && table.rows[userId].email == email
    && RoleNamesOf(table, userId) == roles
  }

  ghost predicate SessionsAgree(w: World) {
    forall id :: Find(w.store, w.now, id).Some? ==>
      var session := Find(w.store, w.now, id).value;
      Describes(w.table, session.userId, session.email, session.roles)
  }

  /** Every identifier in the store came from the supply. */
  predicate IdsUsed(w: World) {
    && w.store.sessions.Keys <= w.used
    && (forall u :: u in w.store.index ==> w.store.index[u].value <= w.used)
  }

  ghost predicate Agreeing(w: World, ttl: Lifetimes) {
    && ttl.Valid()
    && w.now > ZERO_TIME
    && TableOk(w.table)
    && SessionStore.Indexed(w.store, w.now, ttl.refresh)
    && IdsUsed(w)
    && SessionsAgree(w)
  }

  /** Every token that ValidateToken accepts describes its user as the user is now. */
  ghost predicate TokensAgree(w: World) {
    forall token :: Validate(w, token, None).1.Ok? ==>
      Describes(w.table, token.subject, token.email, token.roles)
  }

  lemma AgreeingTokens(w: World, ttl: Lifetimes)
    requires Agreeing(w, ttl)
    ensures TokensAgree(w)
  {
    forall token | Validate(w, token, None).1.Ok? ensures Describes(w.table, token.subject, token.email, token.roles) {
      assert Find(w.store, w.now, token.sessionId).Some?;
    }
  }

  // ---- steps that only forget sessions ----

  /** The store shows no session that it did not show before. */
  ghost predicate Forgets(store: Store, now: int, after: Store, later: int) {
    forall id :: Find(after, later, id).Some? ==> Find(after, later, id) == Find(store, now, id)
  }

  predicate Narrows(store: Store, after: Store) {
    && after.sessions.Keys <= store.sessions.Keys
    && (forall u :: u in after.index ==> u in store.index && after.index[u].value <= store.index[u].value)
  }

  lemma ForgettingKeeps(w: World, after: World, ttl: Lifetimes)
    requires Agreeing(w, ttl)
    requires after.table == w.table && w.used <= after.used && w.now <= after.now
    requires SessionStore.Indexed(after.store, after.now, ttl.refresh)
    requires Forgets(w.store, w.now, after.store, after.now) && Narrows(w.store, after.store)
    ensures Agreeing(after, ttl)
  {
    hide SessionStore.Indexed, TableOk, Describes;
    forall u | u in after.store.index ensures after.store.index[u].value <= after.used {
      assert after.store.index[u].value <= w.store.index[u].value;
    }
  }

  lemma DropForgets(store: Store, now: int, id: string)
    ensures Forgets(store, now, SessionStore.Delete(store, now, id), now)
    ensures Narrows(store, SessionStore.Delete(store, now, id))
  {
    if Find(store, now, id).Some? {
      DropEffect(store, now, id, Find(store, now, id).value);
    }
  }

  lemma ValidateKeeps(w: World, token: Claims, expected: Option<TokenType>, ttl: Lifetimes)
    requires Agreeing(w, ttl)
    ensures Agreeing(Validate(w, token, expected).0, ttl)
    ensures var (after, result) := Validate(w, token, expected);
      && after.(store := w.store) == w
      && Forgets(w.store, w.now, after.store, w.now)
      && (result.Ok? ==>
          && after == w && Find(w.store, w.now, token.sessionId) == Some(result.value) && Fits(token, result.value)
                         && result.value.id == token.sessionId)
  {
    hide TableOk, SessionsAgree, SessionStore.Delete;
    var found := Find(w.store, w.now, token.sessionId);
    if found.Some? {
      SessionStore.KeyIsId(w.store, w.now, ttl.refresh, token.sessionId);
      SessionStore.OperationsKeepIndex(w.store, w.now, ttl.refresh, found.value, token.sessionId, "", "");
      DropForgets(w.store, w.now, found.value.id);
      ForgettingKeeps(w, w.(store := SessionStore.Delete(w.store, w.now, found.value.id)), ttl);
    }
  }

  lemma LogoutKeeps(w: World, token: Claims, outage: Outage, ttl: Lifetimes)
    requires Agreeing(w, ttl)
    ensures Agreeing(LogoutCall(w, token, outage).0, ttl)
  {
    hide Agreeing, SessionStore.Delete;
    ValidateKeeps(w, token, Some(Access), ttl);
    var checked := Validate(w, token, Some(Access)).0;
    DeleteKeeps(checked, token.sessionId, ttl);
  }

  lemma DeleteKeeps(w: World, id: string, ttl: Lifetimes)
    requires Agreeing(w, ttl)
    ensures Agreeing(w.(store := SessionStore.Delete(w.store, w.now, id)), ttl)
  {
    hide TableOk, SessionsAgree, SessionStore.Delete;
    SessionStore.OperationsKeepIndex(w.store, w.now, ttl.refresh, AuthSession("", "", "", [], "", "", 0, 0), id,
      "", "");
    DropForgets(w.store, w.now, id);
    ForgettingKeeps(w, w.(store := SessionStore.Delete(w.store, w.now, id)), ttl);
  }

  /** After DeleteAllForUser nothing of the user is left. */
  lemma WipeKeeps(w: World, userId: string, ttl: Lifetimes)
    requires Agreeing(w, ttl) && userId != ""
    ensures var after := w.(store := SessionStore.DeleteAllForUser(w.store, w.now, userId).0);
      && Agreeing(after, ttl)
      && Forgets(w.store, w.now, after.store, w.now)
      && (forall id :: Find(after.store, after.now, id).Some? ==>
            Find(after.store, after.now, id).value.userId != userId)
  {
    hide TableOk, SessionsAgree, SessionStore.Indexed;
    var after := w.(store := SessionStore.DeleteAllForUser(w.store, w.now, userId).0);
    SessionStore.DeleteAllIsExact(w.store, w.now, userId, ttl.refresh);
    ForgettingKeeps(w, after, ttl);
  }

  lemma LogoutAllKeeps(w: World, token: Claims, outage: Outage, ttl: Lifetimes)
    requires Agreeing(w, ttl)
    ensures Agreeing(LogoutAllCall(w, token, outage).0, ttl)
  {
    hide Agreeing, SessionStore.DeleteAllForUser;
    ValidateKeeps(w, token, Some(Access), ttl);
    if Validate(w, token, Some(Access)).1.Ok? {
      assert token.subject != "";
      WipeKeeps(w, token.subject, ttl);
    }
  }

  lemma WaitKeeps(w: World, d: nat, ttl: Lifetimes)
    requires Agreeing(w, ttl)
    ensures Agreeing(w.(now := w.now + d), ttl)
  {
    SessionStore.TimeKeepsIndex(w.store, w.now, w.now + d, ttl.refresh);
    hide TableOk, SessionsAgree, SessionStore.Indexed;
    ForgettingKeeps(w, w.(now := w.now + d), ttl);
  }

  // ---- steps that change the tables ----

  /** Outside of one user the tables describe everybody as before. */
  ghost predicate ChangesOnly(table: Table, after: Table, userId: string) {
    forall u, email, roles :: u != userId && Describes(table, u, email, roles) ==> Describes(after, u, email, roles)
  }

  lemma OthersUnchanged(table: Table, after: Table, userId: string)
    requires after.roles == table.roles
    requires forall u :: u in table.rows && u != userId ==> u in after.rows && after.rows[u] == table.rows[u]
    requires forall u, r :: u != userId ==> ((u, r) in after.grants <==> (u, r) in table.grants)
    ensures ChangesOnly(table, after, userId)
  {
    forall u | u != userId ensures RoleNamesOf(after, u) == RoleNamesOf(table, u) {
      assert GrantedRoles(after, u) == GrantedRoles(table, u);
    }
  }

  lemma TableChangeKeeps(w: World, after: World, userId: string, ttl: Lifetimes)
    requires Agreeing(w, ttl)
    requires after == w.(table := after.table, used := after.used) && w.used <= after.used
    requires TableOk(after.table) && ChangesOnly(w.table, after.table, userId)
    requires forall id :: Find(w.store, w.now, id).Some? ==> Find(w.store, w.now, id).value.userId != userId
    ensures Agreeing(after, ttl)
  {
    hide SessionStore.Indexed, TableOk, Describes;
    forall u | u in after.store.index ensures after.store.index[u].value <= after.used {
      assert w.store.index[u].value <= w.used;
    }
  }

  lemma CreateUserKeeps(w: World, call: Call, outage: Outage, ttl: Lifetimes)
    requires Agreeing(w, ttl) && call.CreateUser? && Possible(w, call)
    ensures Agreeing(CreateUserCall(w, call, outage).0, ttl)
  {
    hide SessionStore.Indexed, ParseUserId, NormalizeEmail, TrimSpace, RowsOk;
    var email := NormalizeEmail(call.email);
    NormalizeEmailIsStable(call.email);
    var user := User(
      "", email, PasswordHash(call.password), TrimSpace(call.firstName), TrimSpace(call.lastName),
      TrimSpace(call.phone), Active, [Role("", "customer")]);
    CreateKeepsTable(w.table, user, call.newId);
    var after := UserTable.CreateUser(w.table, user, call.newId).0;
    var changed := w.(table := after, used := w.used + {call.newId});
    if after == w.table {
      UsedKeeps(w, changed, ttl);
    } else {
      OthersUnchanged(w.table, after, call.newId);
      NobodyYet(w, call.newId, ttl);
      TableChangeKeeps(w, changed, call.newId, ttl);
    }
  }

  lemma UsedKeeps(w: World, after: World, ttl: Lifetimes)
    requires Agreeing(w, ttl) && after == w.(used := after.used) && w.used <= after.used
    ensures Agreeing(after, ttl)
  {
    hide SessionStore.Indexed, TableOk, Describes;
    forall u | u in after.store.index ensures after.store.index[u].value <= after.used {
      assert w.store.index[u].value <= w.used;
    }
  }

  lemma NobodyYet(w: World, userId: string, ttl: Lifetimes)
    requires Agreeing(w, ttl) && userId !in w.table.rows
    ensures forall id :: Find(w.store, w.now, id).Some? ==> Find(w.store, w.now, id).value.userId != userId
  {
  }

  lemma UpdateUserKeeps(w: World, call: Call, outage: Outage, ttl: Lifetimes)
    requires Agreeing(w, ttl) && call.UpdateUser?
    ensures Agreeing(UpdateUserCall(w, call, outage).0, ttl)
  {
    hide SessionStore.Indexed, ParseUserId, NormalizeEmail, TrimSpace, TableOk, Describes;
    var found := FindById(w.table, TrimSpace(call.id));
    if found.Ok? {
      var user := Overlaid(found.value, call);
      RowFacts(w.table, TrimSpace(call.id));
      UpdateKeepsTable(w.table, user);
      var after := UserTable.UpdateUser(w.table, user).0;
      UpdateDescribes(w.table, user, found.value);
      assert SessionsAgree(w.(table := after));
    }
  }

  lemma RowFacts(table: Table, id: string)
    requires TableOk(table) && FindById(table, id).Ok?
    ensures var row := FindById(table, id).value;
      && ParseUserId(id) == Some(row.id) && ParseUserId(row.id) == Some(row.id) && row.id != ""
      && Present(table, row.id) && table.rows[row.id] == row
      && NormalizeEmail(row.email) == row.email
  {
    hide NormalizeEmail;
    ParsedIdIsCanonical(id);
  }

  /** An update of names and phone changes neither email, roles nor activity. */
  lemma UpdateDescribes(table: Table, user: User, row: Row)
    requires Present(table, row.id) && table.rows[row.id] == row
    requires row.id != "" && ParseUserId(row.id) == Some(row.id)
    requires user.id == row.id && user.email == row.email && user.status == StatusOf(row)
    ensures forall u, email, roles :: Describes(table, u, email, roles) ==>
              Describes(UserTable.UpdateUser(table, user).0, u, email, roles)
  {
    hide ParseUserId;
    var after := UserTable.UpdateUser(table, user).0;
    forall u ensures RoleNamesOf(after, u) == RoleNamesOf(table, u) {
      assert GrantedRoles(after, u) == GrantedRoles(table, u);
    }
  }

  /** The heart of revocation before change: when the id is the stored one, the user
      has no session left when the tables change. */
  lemma RevocationKeeps<T>(w: World, id: string, outage: Outage, change: Table -> (Table, Outcome<T>), ttl: Lifetimes)
    requires Agreeing(w, ttl) && id != ""
    requires TableOk(change(w.table).0) && ChangesOnly(w.table, change(w.table).0, id)
    ensures Agreeing(AfterRevocation(w, id, outage, change).0, ttl)
  {
    hide TableOk, ChangesOnly, SessionsAgree, SessionStore.Indexed, SessionStore.DeleteAllForUser;
    WipeKeeps(w, id, ttl);
    var wiped := w.(store := SessionStore.DeleteAllForUser(w.store, w.now, id).0);
    TableChangeKeeps(wiped, wiped.(table := change(w.table).0), id, ttl);
  }

  /** A change that names a row through a canonical id changes that user only. */
  lemma NamedChanges(table: Table, id: string, name: string)
    requires ParseUserId(id) == None || ParseUserId(id) == Some(id)
    requires FindById(table, id).Ok? ==> FindById(table, id).value.id == id
    ensures ChangesOnly(table, UserTable.DeleteUser(table, id).0, id)
    ensures ChangesOnly(table, UserTable.AssignRole(table, id, name).0, id)
    ensures ChangesOnly(table, UserTable.RevokeRole(table, id, name).0, id)
  {
    hide ParseUserId, RoleNamed;
    OthersUnchanged(table, UserTable.DeleteUser(table, id).0, id);
    OthersUnchanged(table, UserTable.AssignRole(table, id, name).0, id);
    OthersUnchanged(table, UserTable.RevokeRole(table, id, name).0, id);
  }

  lemma FoundIsNamed(table: Table, id: string)
    requires TableOk(table) && (ParseUserId(id) == None || ParseUserId(id) == Some(id))
    ensures FindById(table, id).Ok? ==> FindById(table, id).value.id == id
  {
    hide ParseUserId;
  }

  lemma DeleteUserKeeps(w: World, rawId: string, outage: Outage, ttl: Lifetimes)
    requires Agreeing(w, ttl) && Canonical(Call.DeleteUser(rawId))
    ensures Agreeing(DeleteUserCall(w, rawId, outage).0, ttl)
  {
    hide ParseUserId, TrimSpace, TableOk, SessionStore.Indexed, SessionsAgree, ChangesOnly;
    var id := TrimSpace(rawId);
    if id != "" {
      FoundIsNamed(w.table, id);
      DeleteKeepsTable(w.table, id);
      NamedChanges(w.table, id, "");
      RevocationKeeps(w, id, outage, table => UserTable.DeleteUser(table, id), ttl);
    }
  }

  lemma ChangeRoleKeeps(w: World, rawId: string, rawRole: string, assign: bool, outage: Outage, ttl: Lifetimes)
    requires Agreeing(w, ttl) && Canonical(Call.AssignRole(rawId, rawRole))
    ensures Agreeing(ChangeRoleCall(w, rawId, rawRole, assign, outage).0, ttl)
  {
    hide ParseUserId, TrimSpace, TableOk, SessionStore.Indexed, SessionsAgree, ChangesOnly;
    var id, role := TrimSpace(rawId), ToLower(TrimSpace(rawRole));
    if id != "" && role != "" {
      FoundIsNamed(w.table, id);
      GrantsKeepTable(w.table, id, role);
      NamedChanges(w.table, id, role);
      RevocationKeeps(w, id, outage, table =>
        if assign then UserTable.AssignRole(table, id, role) else UserTable.RevokeRole(table, id, role), ttl);
    }
  }

  // ---- steps that mint ----

  /** Storing a session that describes its user keeps the agreement. */
  lemma PutKeeps(w: World, session: AuthSession, ttl: Lifetimes)
    requires Agreeing(w, ttl) && session.id in w.used
    requires Describes(w.table, session.userId, session.email, session.roles)
    requires SessionStore.Unused(w.store, session.id) ||
             (Find(w.store, w.now, session.id).Some? && w.store.sessions[session.id].value.userId == session.userId)
    ensures Agreeing(w.(store := Put(w.store, w.now, session, ttl.refresh)), ttl)
  {
    SessionStore.PutKeepsIndex(w.store, w.now, session, ttl.refresh);
    PutFinds(w.store, w.now, session, ttl.refresh);
    PutKeepsIds(w, session, ttl.refresh);
    hide SessionStore.Indexed, TableOk, Describes, Put, IdsUsed, SessionStore.Unused;
  }

  lemma PutFinds(store: Store, now: int, session: AuthSession, ttl: int)
    requires ttl > 0
    ensures forall id :: Find(Put(store, now, session, ttl), now, id) ==
              if id == session.id then Some(session) else Find(store, now, id)
  {
  }

  lemma PutKeepsIds(w: World, session: AuthSession, ttl: int)
    requires IdsUsed(w) && session.id in w.used
    ensures IdsUsed(w.(store := Put(w.store, w.now, session, ttl)))
  {
    var after := Put(w.store, w.now, session, ttl);
    forall u | u in after.index ensures after.index[u].value <= w.used {
      assert u in w.store.index ==> w.store.index[u].value <= w.used;
    }
  }

  lemma MintKeeps(w: World, row: Row, sessionId: string, createdAt: int, draw: Draw, ttl: Lifetimes)
    requires Agreeing(w, ttl)
    ensures Agreeing(Mint(w, row, sessionId, createdAt, draw, ttl).0.(now := w.now + draw.delay), ttl)
  {
    hide SessionStore.Indexed, TableOk, SessionsAgree;
    var minted := Mint(w, row, sessionId, createdAt, draw, ttl).0;
    SignedDoesNotMatter(w, minted, ttl);
    WaitKeeps(minted, draw.delay, ttl);
  }

  lemma SignedDoesNotMatter(w: World, after: World, ttl: Lifetimes)
    requires Agreeing(w, ttl) && w.used <= after.used
    requires after == w.(signed := after.signed, used := after.used)
    ensures Agreeing(after, ttl)
  {
    hide SessionStore.Indexed, TableOk, Describes;
    forall u | u in after.store.index ensures after.store.index[u].value <= after.used {
      assert w.store.index[u].value <= w.used;
    }
  }

  lemma FreshIsUnused(w: World, id: string, ttl: Lifetimes)
    requires Agreeing(w, ttl) && id !in w.used
    ensures SessionStore.Unused(w.store, id)
  {
    forall u | u in w.store.index ensures id !in w.store.index[u].value {
      assert w.store.index[u].value <= w.used;
    }
  }

  lemma ActiveRow(table: Table, row: Row)
    requires Present(table, row.id) && table.rows[row.id] == row && StatusOf(row) == Active
    ensures Describes(table, row.id, row.email, RoleNamesOf(table, row.id))
  {
  }

  lemma RowByEmail(table: Table, email: string)
    requires TableOk(table) && FindByEmail(table, email).Ok?
    ensures var row := FindByEmail(table, email).value;
      Present(table, row.id) && table.rows[row.id] == row && row.email == email && row.id != ""
  {
    var row := FindByEmail(table, email).value;
    assert row.id in table.rows && ParseUserId(row.id) == Some(row.id);
  }

  lemma AuthenticateKeeps(w: World, call: Call, outage: Outage, ttl: Lifetimes)
    requires Agreeing(w, ttl) && call.Authenticate? && Possible(w, call)
    ensures Agreeing(AuthenticateCall(w, call, outage, ttl).0, ttl)
  {
    hide SessionStore.Indexed, SessionsAgree, NormalizeEmail, FindByEmail, Put, TableOk, SessionStore.Unused,
      RoleNamesOf;
    var found := FindByEmail(w.table, NormalizeEmail(call.email));
    if found.Ok? && StatusOf(found.value) == Active {
      var draw := call.draw;
      var ids := [draw.sessionId, draw.accessId, draw.refreshId];
      assert ids[0] == draw.sessionId;
      RowByEmail(w.table, NormalizeEmail(call.email));
      ActiveRow(w.table, found.value);
      var (minted, session) := Mint(w, found.value, draw.sessionId, w.now, draw, ttl);
      FreshIsUnused(w, draw.sessionId, ttl);
      MintKeeps(w, found.value, draw.sessionId, w.now, draw, ttl);
      PutKeeps(minted.(now := w.now + draw.delay), session, ttl);
    }
  }

  lemma RefreshKeeps(w: World, call: Call, outage: Outage, ttl: Lifetimes)
    requires Agreeing(w, ttl) && call.RefreshToken? && Possible(w, call)
    ensures Agreeing(RefreshTokenCall(w, call, outage, ttl).0, ttl)
  {
    hide Agreeing, ParseUserId, Validate, Renew;
    ValidateKeeps(w, call.token, Some(Refresh), ttl);
    if ValidateUnder(w, call.token, Some(Refresh), outage).1.Ok? {
      var found := FindById(w.table, call.token.subject);
      if found.Ok? && StatusOf(found.value) == Active {
        assert TableOk(w.table) by { AgreeingTable(w, ttl); }
        RowFacts(w.table, call.token.subject);
        RenewKeeps(w, found.value, call.token, call.draw, outage, ttl);
      }
    }
  }

  lemma AgreeingTable(w: World, ttl: Lifetimes)
    requires Agreeing(w, ttl)
    ensures TableOk(w.table)
  {
  }

  lemma RenewKeeps(w: World, row: Row, token: Claims, draw: Draw, outage: Outage, ttl: Lifetimes)
    requires Agreeing(w, ttl) && Present(w.table, row.id) && w.table.rows[row.id] == row && StatusOf(row) == Active
    requires Find(w.store, w.now, token.sessionId).Some?
             && Find(w.store, w.now, token.sessionId).value.id == token.sessionId
    ensures Agreeing(Renew(w, row, Find(w.store, w.now, token.sessionId).value, token.id, draw, outage, ttl).0, ttl)
  {
    hide SessionStore.Indexed, SessionsAgree, Put, TableOk, SessionStore.Unused, RoleNamesOf, IdsUsed, Describes;
    var current := Find(w.store, w.now, token.sessionId).value;
    ActiveRow(w.table, row);
    var (minted, next) := Mint(w, row, current.id, current.createdAt, draw, ttl);
    MintKeeps(w, row, current.id, current.createdAt, draw, ttl);
    var later := minted.(now := w.now + draw.delay);
    if SessionStore.CheckRotation(Find(later.store, later.now, current.id), token.id, next) {
      PutKeeps(later, next, ttl);
    }
  }

  // ---- every call, every run ----

  lemma ApplyKeeps(w: World, call: Call, outage: Outage, ttl: Lifetimes)
    requires Agreeing(w, ttl) && Possible(w, call) && Canonical(call)
    ensures Agreeing(Apply(w, call, outage, ttl).0, ttl)
  {
    hide Agreeing, Validate;
    match call
    case CreateUser(_, _, _, _, _, _) => CreateUserKeeps(w, call, outage, ttl);
    case UpdateUser(_, _, _, _) => UpdateUserKeeps(w, call, outage, ttl);
    case DeleteUser(id) => DeleteUserKeeps(w, id, outage, ttl);
    case AssignRole(id, role) => ChangeRoleKeeps(w, id, role, true, outage, ttl);
    case RevokeRole(id, role) => ChangeRoleKeeps(w, id, role, false, outage, ttl);
    case Authenticate(_, _, _) => AuthenticateKeeps(w, call, outage, ttl);
    case ValidateToken(token) => ValidateKeeps(w, token, None, ttl);
    case RefreshToken(_, _) => RefreshKeeps(w, call, outage, ttl);
    case Logout(token) => LogoutKeeps(w, token, outage, ttl);
    case LogoutAll(token) => LogoutAllKeeps(w, token, outage, ttl);
    case Wait(d) => WaitKeeps(w, d, ttl);
  }

  lemma {:induction false} RunKeeps(w: World, steps: seq<Step>, ttl: Lifetimes)
    requires Agreeing(w, ttl) && CanRun(w, steps, ttl)
    requires forall i :: 0 <= i < |steps| ==> Canonical(steps[i].0)
    ensures Agreeing(After(w, steps, ttl), ttl)
    decreases |steps|
  {
    hide Agreeing, Apply, Possible, Canonical;
    if steps != [] {
      assert Canonical(steps[0].0);
      ApplyKeeps(w, steps[0].0, steps[0].1, ttl);
      RunKeeps(Apply(w, steps[0].0, steps[0].1, ttl).0, steps[1..], ttl);
    }
  }

  lemma InitialAgrees(w: World, ttl: Lifetimes)
    requires Initial(w) && ttl.Valid()
    ensures Agreeing(w, ttl)
  {
    hide TableOk;
  }

  /** Cache agrees with database: after any calls that name users canonically, in any
      order and with any backend failing at any of them, every accepted token names a
      user who is there and active, with the email and the roles the user has now. */
  lemma CacheAgreesWithTables(w: World, steps: seq<Step>, ttl: Lifetimes)
    requires Initial(w) && ttl.Valid() && CanRun(w, steps, ttl)
    requires forall i :: 0 <= i < |steps| ==> Canonical(steps[i].0)
    ensures TokensAgree(After(w, steps, ttl))
  {
    hide Agreeing, Initial, CanRun, After, TokensAgree, Canonical;
    InitialAgrees(w, ttl);
    RunKeeps(w, steps, ttl);
    AgreeingTokens(After(w, steps, ttl), ttl);
  }
}
