/** What each service call achieves, told by the tables and sessions before and after:
    when it succeeds, what it changes, and that it changes nothing else. */
module Effects {
  import opened Domain
  import opened Keyspace
  import opened Text
  import opened Tokens
  import opened Roles
  import opened UserTable
  import opened Service
  import opened Accounts
  import opened Samples
  import opened SampleWorlds
  import SessionStore

  // ---- sessions ----

  /** Somebody active has this address and this password. */
  ghost predicate HasAccount(table: Table, email: string, password: string) {
    exists id :: Present(table, id) && table.rows[id].email == email
                 && table.rows[id].password == PasswordHash(password) && table.rows[id].isActive
  }

  /** A login succeeds exactly for the address, in any spelling that normalizes to it,
      and the password of an active account, while the commands it needs answer. */
  lemma LoginSucceedsIff(w: World, call: Call, outage: Outage, ttl: Lifetimes)
    requires ttl.Valid() && TableOk(w.table)
    requires call.Authenticate? && Possible(w, call)
    ensures Apply(w, call, outage, ttl).1.Pair? <==>
            && outage !in {StoreDown, UserLookupDown}
            && NormalizeEmail(call.email) != "" && call.password != ""
            && HasAccount(w.table, NormalizeEmail(call.email), call.password)
  {
    hide NormalizeEmail, ParseUserId, RoleNamesOf, Put;
    var email := NormalizeEmail(call.email);
    var ids := [call.draw.sessionId, call.draw.accessId, call.draw.refreshId];
    assert ids[0] == call.draw.sessionId && ids[1] == call.draw.accessId && ids[2] == call.draw.refreshId;
    EmailNamesOne(w.table, email, call.password);
    if FindByEmail(w.table, email).Ok? {
      RowOfEmail(w.table, email);
    }
  }

  lemma EmailNamesOne(table: Table, email: string, password: string)
    requires TableOk(table)
    ensures HasAccount(table, email, password) <==>
            var found := FindByEmail(table, email);
            found.Ok? && found.value.password == PasswordHash(password) && StatusOf(found.value) == Active
  {
    hide NormalizeEmail, ParseUserId;
    if exists id :: Present(table, id) && table.rows[id].email == email {
      var id :| Present(table, id) && table.rows[id].email == email;
      FindByEmailFinds(table, id);
    }
  }

  /** A refresh succeeds exactly when its token validates, the account is still active, and
      Redis still holds the session when the new pair is ready to be stored. */
  lemma RefreshSucceedsIff(w: World, call: Call, outage: Outage, ttl: Lifetimes)
    requires ttl.Valid() && TableOk(w.table) && SessionStore.Indexed(w.store, w.now, ttl.refresh)
    requires call.RefreshToken? && Possible(w, call)
    ensures Apply(w, call, outage, ttl).1.Pair? <==>
            && outage !in {SessionLookupDown, StoreDown, UserLookupDown}
            && Validate(w, call.token, Some(Refresh)).1.Ok?
            && Present(w.table, call.token.subject) && w.table.rows[call.token.subject].isActive
            && w.now + call.draw.delay <= w.store.sessions[call.token.sessionId].deadline
  {
    hide ParseUserId, Validate, TableOk, Apply, Renew;
    RefreshCases(w, call.token, call.draw, outage, ttl);
    RefreshTokenIsCurrent(w, call.token, ttl);
    SubjectFound(w.table, call.token.subject);
    var found := FindById(w.table, call.token.subject);
    if found.Ok? && Validate(w, call.token, Some(Refresh)).1.Ok? {
      RenewSucceedsIff(w, found.value, w.store.sessions[call.token.sessionId].value, call.draw, outage, ttl);
    }
  }

  /** The rotation to a newly minted pair succeeds when Redis answers and still holds the session. */
  lemma RenewSucceedsIff(w: World, row: Row, current: AuthSession, draw: Draw, outage: Outage, ttl: Lifetimes)
    requires ttl.Valid() && NewIds(w, [draw.accessId, draw.refreshId]) && row.id != ""
    requires current.id in w.store.sessions && w.store.sessions[current.id].value == current
    requires current.id != "" && current.refreshId != ""
    ensures Renew(w, row, current, current.refreshId, draw, outage, ttl).1.Pair? <==>
            outage != StoreDown && row.id == current.userId
              && w.now + draw.delay <= w.store.sessions[current.id].deadline
  {
    hide RoleNamesOf, Put;
    var ids := [draw.accessId, draw.refreshId];
    assert ids[0] == draw.accessId && ids[1] == draw.refreshId;
  }

  /** A user is found under the stored id itself exactly when that row is present. */
  lemma SubjectFound(table: Table, id: string)
    requires TableOk(table)
    ensures FindById(table, id).Ok? ==> FindById(table, id).value.id != ""
    ensures FindById(table, id).Ok? && FindById(table, id).value.id == id <==> Present(table, id)
    ensures Present(table, id) ==> FindById(table, id).value == table.rows[id]
  {
    hide ParseUserId, NormalizeEmail;
    if Present(table, id) {
      RowIsCanonical(table, id);
    }
    if FindById(table, id).Ok? {
      RowIsCanonical(table, ParseUserId(id).value);
      RowHasId(table, id);
    }
  }

  /** A logout ends the one session and leaves every other as it is. */
  lemma LogoutEnds(w: World, token: Claims, outage: Outage, ttl: Lifetimes)
    requires SessionStore.Indexed(w.store, w.now, ttl.refresh)
    requires Apply(w, Call.Logout(token), outage, ttl).1.Done?
    ensures token.kind == Access && Find(w.store, w.now, token.sessionId).Some?
    ensures var after := Apply(w, Call.Logout(token), outage, ttl).0;
      && after == w.(store := after.store)
      && forall id :: Find(after.store, w.now, id) == if id == token.sessionId then None else Find(w.store, w.now, id)
  {
    hide Parses, Fits, Drop;
    SessionStore.KeyIsId(w.store, w.now, ttl.refresh, token.sessionId);
    DropEffect(w.store, w.now, token.sessionId, Find(w.store, w.now, token.sessionId).value);
  }

  /** Logging out everywhere ends exactly the sessions of the token's user. */
  lemma LogoutAllEnds(w: World, token: Claims, outage: Outage, ttl: Lifetimes)
    requires SessionStore.Indexed(w.store, w.now, ttl.refresh)
    requires Apply(w, Call.LogoutAll(token), outage, ttl).1.Done?
    ensures token.kind == Access
    ensures var after := Apply(w, Call.LogoutAll(token), outage, ttl).0;
      && after == w.(store := after.store)
      && forall id :: Find(after.store, w.now, id) ==
           if Find(w.store, w.now, id).Some? && Find(w.store, w.now, id).value.userId == token.subject then None
           else Find(w.store, w.now, id)
  {
    hide SessionStore.Indexed, SessionStore.DeleteAllForUser, SessionStore.Get, Find;
    SubjectPresent(w, token);
    SessionStore.DeleteAllIsExact(w.store, w.now, token.subject, ttl.refresh);
    ValidLeaves(w, token);
  }

  lemma SubjectPresent(w: World, token: Claims)
    ensures Validate(w, token, Some(Access)).1.Ok? ==> token.subject != "" && token.kind == Access
  {
  }

  /** A validation that succeeds deletes nothing. */
  lemma ValidLeaves(w: World, token: Claims)
    ensures Validate(w, token, Some(Access)).1.Ok? ==> Validate(w, token, Some(Access)).0 == w
  {
    hide SessionStore.Delete;
  }

  /** A refresh never takes an access token, a logout never a refresh token. */
  lemma WrongTypeIsRefused(w: World, call: Call, outage: Outage, ttl: Lifetimes)
    requires (call.RefreshToken? && call.token.kind == Access) ||
             ((call.Logout? || call.LogoutAll?) && call.token.kind == Refresh)
    ensures Apply(w, call, outage, ttl) == (w, Failed(InvalidToken))
  {
  }

  // ---- roles ----

  /** A role of this name exists and is active. */
  ghost predicate Offered(table: Table, name: string) {
    exists r :: r in table.roles && table.roles[r].name == name && !table.roles[r].deleted
  }

  lemma SortKeepsMembers(names: seq<string>, name: string)
    ensures name in SortStrings(names) <==> name in names
  {
    SortStringsSorts(names);
    assert name in multiset(SortStrings(names)) <==> name in multiset(names);
  }

  /** The user's role names are the names of the granted, active roles. */
  lemma HasName(table: Table, id: string, name: string)
    requires name != ""
    ensures name in RoleNamesOf(table, id) <==>
            exists r :: r in table.roles && (id, r) in table.grants && !table.roles[r].deleted
              && table.roles[r].name == name
  {
    var granted := GrantedRoles(table, id);
    var xs := Arrange(granted);
    SortKeepsMembers(NonEmptyNames(xs), name);
    NamesOfAll(xs, name);
    forall role ensures role in xs <==> role in granted {
      assert role in multiset(xs) <==> role in multiset(granted);
    }
    if r :| r in table.roles && (id, r) in table.grants && !table.roles[r].deleted && table.roles[r].name == name {
      assert Role(r, table.roles[r].name) in granted;
    }
    if i :| 0 <= i < |xs| && xs[i].name == name {
      assert xs[i] in granted;
    }
  }

  /** One more granted role is one more name. */
  lemma OneMoreName(before: set<Role>, after: set<Role>, role: Role)
    requires role !in before && after == before + {role} && role.name != ""
    ensures multiset(RoleNames(Arrange(after))) == multiset(RoleNames(Arrange(before))) + multiset{role.name}
  {
    var xs, ys := Arrange(before), Arrange(after);
    assert multiset(ys) == multiset(xs + [role]) by {
      assert multiset(after) == multiset(before) + multiset{role};
    }
    NamesOfPermutation(ys, xs + [role]);
    NamesOfLast(xs, role);
    SortStringsSorts(NonEmptyNames(xs));
    SortStringsSorts(NonEmptyNames(ys));
  }

  /** The users other than this one have the role names they had. */
  ghost predicate OthersKeepNames(table: Table, after: Table, id: string) {
    forall u :: u != id ==> RoleNamesOf(after, u) == RoleNamesOf(table, u)
  }

  lemma GrantsElsewhere(table: Table, after: Table, id: string)
    requires after.roles == table.roles
    requires forall u, r :: u != id ==> ((u, r) in after.grants <==> (u, r) in table.grants)
    ensures OthersKeepNames(table, after, id)
  {
    hide RoleNames;
    forall u | u != id ensures RoleNamesOf(after, u) == RoleNamesOf(table, u) {
      assert GrantedRoles(after, u) == GrantedRoles(table, u);
    }
  }

  lemma OfferedIsNamed(table: Table, name: string)
    requires TableOk(table)
    ensures Offered(table, name) <==> RoleNamed(table, name).Some?
    ensures forall r :: r in table.roles && table.roles[r].name == name && !table.roles[r].deleted ==>
              RoleNamed(table, name) == Some(r)
    ensures RoleNamed(table, name).Some? ==>
              RoleNamed(table, name).value in table.roles && !table.roles[RoleNamed(table, name).value].deleted
              && table.roles[RoleNamed(table, name).value].name == name
  {
    hide NormalizeEmail, ParseUserId;
    forall r | r in table.roles && table.roles[r].name == name && !table.roles[r].deleted
      ensures RoleNamed(table, name) == Some(r)
    {
      RoleNamedFinds(table, r);
    }
    if RoleNamed(table, name).Some? {
      assert RoleNamed(table, name).value in RoleIdsNamed(table, [name]);
    }
  }

  /** Assigning succeeds exactly when the user is there, the role is offered and the user
      does not have it; then that name is added and nobody else's names change. */
  lemma AssignAddsName(table: Table, id: string, name: string)
    requires TableOk(table) && name != ""
    ensures var (after, result) := UserTable.AssignRole(table, id, name);
      var found := FindById(table, id);
      && (result.Ok? <==> found.Ok? && Offered(table, name) && name !in RoleNamesOf(table, found.value.id))
      && (result.Err? ==> after == table)
      && (result == Err(InvalidInput) <==> ParseUserId(id).None?)
      && (result == Err(NotFound) <==>
          ParseUserId(id).Some? && (!Present(table, ParseUserId(id).value) || !Offered(table, name)))
      && (result == Err(AlreadyExists) <==>
          found.Ok? && Offered(table, name) && name in RoleNamesOf(table, found.value.id))
      && after.rows == table.rows && after.roles == table.roles
      && (result.Ok? ==>
          && multiset(RoleNamesOf(after, found.value.id)) ==
             multiset(RoleNamesOf(table, found.value.id)) + multiset{name}
          && OthersKeepNames(table, after, found.value.id))
  {
    hide TableOk, ParseUserId, RoleNamesOf, RoleNamed, OthersKeepNames;
    var found := FindById(table, id);
    OfferedIsNamed(table, name);
    if found.Ok? && RoleNamed(table, name).Some? {
      var u, r := found.value.id, RoleNamed(table, name).value;
      HasName(table, u, name);
      var after := table.(grants := table.grants + {(u, r)});
      if (u, r) !in table.grants {
        GrantAddsName(table, after, u, r);
        GrantsElsewhere(table, after, u);
      }
    }
  }

  lemma GrantAddsName(table: Table, after: Table, u: string, r: string)
    requires r in table.roles && !table.roles[r].deleted && table.roles[r].name != "" && (u, r) !in table.grants
    requires after == table.(grants := table.grants + {(u, r)})
    ensures multiset(RoleNamesOf(after, u)) == multiset(RoleNamesOf(table, u)) + multiset{table.roles[r].name}
  {
    var role := Role(r, table.roles[r].name);
    assert GrantedRoles(after, u) == GrantedRoles(table, u) + {role};
    OneMoreName(GrantedRoles(table, u), GrantedRoles(after, u), role);
  }

  /** Revoking succeeds exactly when the user is there and has a role of that name; then
      that name is removed and nobody else's names change. */
  lemma RevokeRemovesName(table: Table, id: string, name: string)
    requires TableOk(table) && name != ""
    ensures var (after, result) := UserTable.RevokeRole(table, id, name);
      var found := FindById(table, id);
      && (result.Ok? <==> found.Ok? && name in RoleNamesOf(table, found.value.id))
      && (result == Err(InvalidInput) <==> ParseUserId(id).None?)
      && (result == Err(NotFound) <==>
          ParseUserId(id).Some? && (found.Err? || name !in RoleNamesOf(table, found.value.id)))
      && (result.Err? ==> after == table)
      && after.rows == table.rows && after.roles == table.roles
      && (result.Ok? ==>
          && multiset(RoleNamesOf(table, found.value.id)) ==
             multiset(RoleNamesOf(after, found.value.id)) + multiset{name}
          && OthersKeepNames(table, after, found.value.id))
  {
    hide TableOk, ParseUserId, RoleNamesOf, RoleNamed, OthersKeepNames;
    var found := FindById(table, id);
    OfferedIsNamed(table, name);
    if found.Ok? {
      var u := found.value.id;
      HasName(table, u, name);
      if RoleNamed(table, name).Some? && (u, RoleNamed(table, name).value) in table.grants {
        var r := RoleNamed(table, name).value;
        var after := table.(grants := table.grants - {(u, r)});
        assert after.grants + {(u, r)} == table.grants;
        GrantAddsName(after, table, u, r);
        GrantsElsewhere(table, after, u);
      }
    }
  }

  /** At the service, whatever the spelling of id and role, a role change is answered with
      the account exactly when the tables accept it and every command answers. The tables
      change whenever they accept it and the sessions could be revoked, answer or not. */
  lemma RoleChangeSucceedsIff(w: World, call: Call, outage: Outage, ttl: Lifetimes)
    requires call.AssignRole? || call.RevokeRole?
    ensures var (after, reply) := Apply(w, call, outage, ttl);
      var (table, result) := ChangeRole(w.table, call);
      && (reply.Account? <==> outage !in {StoreDown, TableDown, UserLookupDown} && result.Ok?)
      && (after.table != w.table <==> outage !in {StoreDown, TableDown} && result.Ok?)
      && (after.table == w.table || after.table == table)
  {
    hide TrimSpace, ToLower, ParseUserId, UserTable.AssignRole, UserTable.RevokeRole, Erase;
    var id, role := TrimSpace(call.id), ToLower(TrimSpace(call.role));
    ChangeKeepsUser(w.table, id, role);
    AcceptedChangeShows(w.table, call);
  }

  /** One input that shows it: a first grant to the only user, whose answer is lost. */
  lemma LostAnswerChangesTables() returns (w: World, call: Call)
    ensures Initial(w) && Possible(w, call) && LosesAnswer(w.table, call, UserLookupDown)
    ensures var (after, reply) := Apply(w, call, UserLookupDown, TTL);
      reply == Failed(Internal) && w.table.grants == {} && |after.table.grants| == 1
  {
    hide ParseUserId, TrimSpace, ToLower, RoleNamed, Erase;
    var id := CanonicalId();
    var role := SomeRole();
    w := OneUser(id, role, false);
    call := Call.AssignRole(id, "r");
    OneUserIsInitial(id, role, false);
    RoleNamedFinds(w.table, "r");
  }

  /** A user whose roles are changed is still there to be shown. */
  lemma ChangeKeepsUser(table: Table, id: string, name: string)
    ensures StillFound(table, UserTable.AssignRole(table, id, name), id)
    ensures StillFound(table, UserTable.RevokeRole(table, id, name), id)
  {
    hide ParseUserId, RoleNamed;
  }

  predicate StillFound(table: Table, changed: (Table, Outcome<()>), id: string) {
    if changed.1.Ok? then FindById(table, id).Ok? && FindById(changed.0, id) == FindById(table, id)
       else changed.0 == table
  }

  // ---- accounts ----

  /** An address, or a phone number that is not empty, that no row holds, deleted or not. */
  predicate Free(table: Table, email: string, phone: string) {
    forall id :: id in table.rows ==> table.rows[id].email != email && (phone != "" ==> table.rows[id].phone != phone)
  }

  /** Registration succeeds exactly with a non-empty free address, a free phone number, a
      password of 8 to 72 bytes and the default role on offer; it adds one active
      account whose only role is "customer". */
  lemma RegistrationSucceedsIff(w: World, call: Call, outage: Outage, ttl: Lifetimes)
    requires TableOk(w.table) && call.CreateUser? && Possible(w, call) && call.newId !in w.table.rows
    ensures var (after, reply) := Apply(w, call, outage, ttl);
      && (reply.Account? <==>
          && outage != TableDown && NormalizeEmail(call.email) != "" && 8 <= Utf8Length(call.password) <= 72
          && Free(w.table, NormalizeEmail(call.email), TrimSpace(call.phone)) && Offered(w.table, "customer"))
      && (reply.Account? ==>
          && after.table.rows == w.table.rows[call.newId := reply.row]
          && reply.row.id == call.newId && reply.row.email == NormalizeEmail(call.email)
          && reply.row.password == PasswordHash(call.password) && StatusOf(reply.row) == Active
          && reply.row.isActive && !reply.row.deleted
          && reply.row.firstName == TrimSpace(call.firstName) && reply.row.lastName == TrimSpace(call.lastName)
          && reply.row.phone == TrimSpace(call.phone)
          && RoleNamesOf(after.table, call.newId) == ["customer"]
          && OthersKeepNames(w.table, after.table, call.newId))
      && after.store == w.store
  {
    hide ParseUserId, NormalizeEmail, TrimSpace, RoleNamesOf, OthersKeepNames, RoleNamed, TableOk, UserTable.CreateUser;
    var user := User(
      "", NormalizeEmail(call.email), PasswordHash(call.password), TrimSpace(call.firstName), TrimSpace(call.lastName),
      TrimSpace(call.phone), Active, [Role("", "customer")]);
    CustomerIsAdded(w.table, user, call.newId);
  }

  /** The tables take a new customer exactly when address and phone are free and the role is on offer. */
  lemma CustomerIsAdded(table: Table, user: User, newId: string)
    requires TableOk(table) && newId !in table.rows
    requires user.id == "" && user.status == Active && user.roles == [Role("", "customer")]
    ensures var (after, result) := UserTable.CreateUser(table, user, newId);
      && (result.Ok? <==> Free(table, user.email, user.phone) && Offered(table, "customer"))
      && (result.Err? ==> after == table)
      && (result.Ok? ==>
          && result.value == RowOf(user, newId) && after.rows == table.rows[newId := result.value]
          && RoleNamesOf(after, newId) == ["customer"] && OthersKeepNames(table, after, newId))
  {
    hide ParseUserId, NormalizeEmail, RoleNamesOf, OthersKeepNames, RoleNamed, TableOk;
    assert NameList(user.roles) == ["customer"];
    var found := RoleIdsNamed(table, ["customer"]);
    OneRoleNamed(table, "customer");
    if Offered(table, "customer") {
      var r :| found == {r};
      var after := Table(
        table.rows[newId := RowOf(user, newId)], table.roles, table.grants + (set q | q in found :: (newId, q)));
      assert r in found;
      NewUserNames(table, after, newId, r, "customer");
      GrantsElsewhere(table, after, newId);
    }
  }

  lemma OneRoleNamed(table: Table, name: string)
    requires TableOk(table)
    ensures Offered(table, name) ==> exists r :: RoleIdsNamed(table, [name]) == {r}
    ensures !Offered(table, name) ==> RoleIdsNamed(table, [name]) == {}
  {
    hide NormalizeEmail, ParseUserId;
    if Offered(table, name) {
      var r :| r in table.roles && table.roles[r].name == name && !table.roles[r].deleted;
      assert RoleIdsNamed(table, [name]) == {r};
    }
  }

  lemma NewUserNames(table: Table, after: Table, id: string, r: string, name: string)
    requires TableOk(table) && id !in table.rows && name != ""
    requires r in table.roles && table.roles[r].name == name && !table.roles[r].deleted
    requires after.roles == table.roles && after.grants == table.grants + {(id, r)}
    ensures RoleNamesOf(after, id) == [name]
  {
    hide NormalizeEmail, ParseUserId;
    assert GrantedRoles(table, id) == {};
    assert GrantedRoles(after, id) == {Role(r, name)};
    OneMoreName({}, {Role(r, name)}, Role(r, name));
    assert |multiset(Arrange<Role>({}))| == 0;
    assert NonEmptyNames([]) == [] && SortStrings([]) == [];
    var names := RoleNamesOf(after, id);
    assert |multiset(names)| == 1 && names[0] in multiset(names);
  }

  /** Deleting by the stored id removes the account from every lookup, ends exactly its
      sessions, and leaves every other row and session alone. */
  lemma DeletionRemoves(w: World, id: string, outage: Outage, ttl: Lifetimes)
    requires TableOk(w.table) && SessionStore.Indexed(w.store, w.now, ttl.refresh)
    requires ParseUserId(id) == Some(id) && TrimSpace(id) == id != ""
    ensures var (after, reply) := Apply(w, Call.DeleteUser(id), outage, ttl);
      && (reply.Done? <==> outage !in {StoreDown, TableDown} && Present(w.table, id))
      && (reply.Done? ==>
          && FindById(after.table, id) == Err(NotFound)
          && after.table.rows.Keys == w.table.rows.Keys && after.table.grants == w.table.grants
          && (forall u :: u in w.table.rows && u != id ==> after.table.rows[u] == w.table.rows[u])
          && (forall s :: Find(after.store, w.now, s) ==
                if Find(w.store, w.now, s).Some? && Find(w.store, w.now, s).value.userId == id then None
                else Find(w.store, w.now, s)))
  {
    hide ParseUserId, TrimSpace, NormalizeEmail, SessionStore.Indexed, SessionStore.DeleteAllForUser, Find;
    SessionStore.DeleteAllIsExact(w.store, w.now, id, ttl.refresh);
    assert SessionStore.DeleteAllForUser(w.store, w.now, id).1.Ok? by { WipeSucceeds(w.store, w.now, id); }
    if Present(w.table, id) {
      RowIsCanonical(w.table, id);
    }
  }

  lemma WipeSucceeds(store: Store, now: int, id: string)
    requires id != ""
    ensures SessionStore.DeleteAllForUser(store, now, id).1.Ok?
  {
  }

  /** An update touches the names and the phone of one row and nothing else. */
  lemma UpdateChangesNamesOnly(w: World, call: Call, outage: Outage, ttl: Lifetimes)
    requires TableOk(w.table) && call.UpdateUser?
    requires Apply(w, call, outage, ttl).1.Account?
    ensures var (after, reply) := Apply(w, call, outage, ttl);
      var found := FindById(w.table, TrimSpace(call.id));
      && found.Ok?
      && after == w.(table := w.table.(rows := w.table.rows[found.value.id := reply.row]))
      && reply.row == found.value.(
           firstName := reply.row.firstName, lastName := reply.row.lastName, phone := reply.row.phone)
      && reply.row.firstName ==
         (if TrimSpace(call.firstName) != "" then TrimSpace(call.firstName) else found.value.firstName)
      && reply.row.lastName ==
         (if TrimSpace(call.lastName) != "" then TrimSpace(call.lastName) else found.value.lastName)
      && reply.row.phone == (if TrimSpace(call.phone) != "" then TrimSpace(call.phone) else found.value.phone)
  {
    hide ParseUserId, TrimSpace, NormalizeEmail;
    var found := FindById(w.table, TrimSpace(call.id));
    if found.Ok? {
      FoundIsPresent(w.table, TrimSpace(call.id));
      RowIsCanonical(w.table, found.value.id);
    }
  }
}
