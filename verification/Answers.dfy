/** What each service call answers, its errors included, told by the request and by what
    the tables and the store hold. */
module Answers {
  import opened Domain
  import opened Keyspace
  import opened Text
  import opened UserTable
  import opened Service
  import opened Accounts
  import opened Effects
  import SessionStore

  // ---- tokens ----

  /** Everything that a token must meet to be accepted. */
  predicate Acceptable(w: World, token: Claims) {
    && token in w.signed
    && token.issuedAt - 30_000_000_000 <= w.now < token.expiresAt + 30_000_000_000
    && token.subject != "" && token.id != "" && token.email != "" && token.sessionId != ""
    && token.sessionId in w.store.sessions
    && var cell := w.store.sessions[token.sessionId];
       && w.now <= cell.deadline && w.now <= cell.value.expiresAt
       && cell.value.userId == token.subject && cell.value.email == token.email && cell.value.roles == token.roles
       && (token.kind == Access ==> cell.value.accessId == token.id)
       && (token.kind == Refresh ==> cell.value.refreshId == token.id)
  }

  /** Validation accepts a token exactly when it is acceptable and of the expected type; it
      answers with the stored session and then changes nothing. */
  lemma ValidatesIff(w: World, token: Claims, expected: Option<TokenType>)
    ensures var (after, result) := Validate(w, token, expected);
      && (result.Ok? <==> Acceptable(w, token) && (expected == None || expected == Some(token.kind)))
      && (result.Ok? ==> after == w && result.value == w.store.sessions[token.sessionId].value)
      && (result.Err? ==> result.error == InvalidToken)
  {
    hide SessionStore.Delete;
  }

  /** ValidateToken, Logout and LogoutAll: the claims or success for an acceptable token of
      the right type, ErrInvalidToken for any other, and an internal error when the token is
      acceptable and the store cannot delete. */
  lemma TokenCallAnswers(w: World, call: Call, outage: Outage, ttl: Lifetimes)
    requires call.ValidateToken? || call.Logout? || call.LogoutAll?
    ensures var reply := Apply(w, call, outage, ttl).1;
      var accepted := outage != SessionLookupDown && Acceptable(w, call.token)
                      && (call.ValidateToken? || call.token.kind == Access);
      if !accepted then reply == Failed(InvalidToken)
      else if call.ValidateToken? then reply == Identity(call.token)
      else if outage == StoreDown then reply == Failed(Internal)
      else reply == Done
  {
    hide Acceptable, Validate;
    ValidatesIff(w, call.token, if call.ValidateToken? then None else Some(Access));
    assert call.LogoutAll? && Acceptable(w, call.token) ==> call.token.subject != "" by { NamesUser(w, call.token); }
  }

  lemma NamesUser(w: World, token: Claims)
    ensures Acceptable(w, token) ==> token.subject != ""
  {
  }

  // ---- logins and refreshes ----

  /** Somebody with this address and password is there, but suspended. */
  ghost predicate HasSuspended(table: Table, email: string, password: string) {
    exists id :: Present(table, id) && table.rows[id].email == email
                 && table.rows[id].password == PasswordHash(password) && !table.rows[id].isActive
  }

  /** A login is answered with ErrForbidden exactly for the address and password of a
      suspended account, with an internal error exactly when only the store stands in its
      way, and with ErrInvalidPassword otherwise. */
  lemma LoginAnswers(w: World, call: Call, outage: Outage, ttl: Lifetimes)
    requires ttl.Valid() && TableOk(w.table)
    requires call.Authenticate? && Possible(w, call)
    ensures var reply := Apply(w, call, outage, ttl).1;
      var email := NormalizeEmail(call.email);
      if email == "" || call.password == "" || outage == UserLookupDown then reply == Failed(InvalidPassword)
      else if HasSuspended(w.table, email, call.password) then reply == Failed(Forbidden)
      else if !HasAccount(w.table, email, call.password) then reply == Failed(InvalidPassword)
      else if outage == StoreDown then reply == Failed(Internal)
      else reply.Pair?
  {
    hide NormalizeEmail, ParseUserId, TableOk, Apply, Open;
    LoginCases(w, call.email, call.password, call.draw, outage, ttl);
    AccountIs(w.table, NormalizeEmail(call.email), call.password);
    LoginSucceedsIff(w, call, outage, ttl);
    if FindByEmail(w.table, NormalizeEmail(call.email)).Ok? {
      RowOfEmail(w.table, NormalizeEmail(call.email));
      OpenAnswers(w, FindByEmail(w.table, NormalizeEmail(call.email)).value, call.draw, outage, ttl);
    }
  }

  lemma OpenAnswers(w: World, row: Row, draw: Draw, outage: Outage, ttl: Lifetimes)
    requires ttl.Valid() && row.id != "" && NewIds(w, [draw.sessionId, draw.accessId, draw.refreshId])
    ensures var reply := Open(w, row, draw, outage, ttl).1;
            if outage == StoreDown then reply == Failed(Internal) else reply.Pair?
  {
    hide RoleNamesOf, Put;
    var ids := [draw.sessionId, draw.accessId, draw.refreshId];
    assert ids[0] == draw.sessionId && ids[1] == draw.accessId && ids[2] == draw.refreshId;
  }

  lemma AccountIs(table: Table, email: string, password: string)
    requires TableOk(table)
    ensures var found := FindByEmail(table, email);
      && (HasAccount(table, email, password) <==>
          found.Ok? && found.value.password == PasswordHash(password) && StatusOf(found.value) == Active)
      && (HasSuspended(table, email, password) <==>
          found.Ok? && found.value.password == PasswordHash(password) && StatusOf(found.value) == Suspended)
      && (found.Ok? ==> StatusOf(found.value) != Deleted)
  {
    hide NormalizeEmail, ParseUserId;
    EmailNamesOne(table, email, password);
    if exists id :: Present(table, id) && table.rows[id].email == email {
      var id :| Present(table, id) && table.rows[id].email == email;
      FindByEmailFinds(table, id);
    }
  }

  /** A refresh is answered with ErrForbidden exactly for the acceptable refresh token of a
      suspended account, with an internal error exactly when only the store stands in its
      way, and with ErrInvalidToken otherwise. */
  lemma RefreshAnswers(w: World, call: Call, outage: Outage, ttl: Lifetimes)
    requires ttl.Valid() && TableOk(w.table) && SessionStore.Indexed(w.store, w.now, ttl.refresh)
    requires call.RefreshToken? && Possible(w, call)
    ensures var reply := Apply(w, call, outage, ttl).1;
      var id := ParseUserId(call.token.subject);
      if outage in {SessionLookupDown, UserLookupDown} || !Acceptable(w, call.token) || call.token.kind != Refresh
         || id.None? || !Present(w.table, id.value)
      then reply == Failed(InvalidToken)
      else if !w.table.rows[id.value].isActive then reply == Failed(Forbidden)
      else if outage == StoreDown then reply == Failed(Internal)
      else if id.value == call.token.subject
              && w.now + call.draw.delay <= w.store.sessions[call.token.sessionId].deadline
      then reply.Pair? else reply == Failed(InvalidToken)
  {
    hide ParseUserId, TableOk, Apply, Renew, Validate, Acceptable, SessionStore.Indexed;
    RefreshCases(w, call.token, call.draw, outage, ttl);
    ValidatesIff(w, call.token, Some(Refresh));
    RefreshTokenIsCurrent(w, call.token, ttl);
    var found := FindById(w.table, call.token.subject);
    if found.Ok? {
      FoundUnderId(w.table, call.token.subject);
      if Validate(w, call.token, Some(Refresh)).1.Ok? {
        RenewAnswers(w, found.value, w.store.sessions[call.token.sessionId].value, call.draw, outage, ttl);
      }
    }
  }

  lemma FoundUnderId(table: Table, id: string)
    requires TableOk(table) && FindById(table, id).Ok?
    ensures ParseUserId(id) == Some(FindById(table, id).value.id) && FindById(table, id).value.id != ""
    ensures StatusOf(FindById(table, id).value) != Deleted
  {
    hide ParseUserId, NormalizeEmail;
    RowIsCanonical(table, ParseUserId(id).value);
    RowHasId(table, id);
  }

  lemma RenewAnswers(w: World, row: Row, current: AuthSession, draw: Draw, outage: Outage, ttl: Lifetimes)
    requires ttl.Valid() && NewIds(w, [draw.accessId, draw.refreshId]) && row.id != ""
    requires current.id in w.store.sessions && w.store.sessions[current.id].value == current
    requires current.id != "" && current.refreshId != ""
    ensures var reply := Renew(w, row, current, current.refreshId, draw, outage, ttl).1;
      if outage == StoreDown then reply == Failed(Internal)
      else if row.id == current.userId && w.now + draw.delay <= w.store.sessions[current.id].deadline then reply.Pair?
      else reply == Failed(InvalidToken)
  {
    hide RoleNamesOf, Put;
    var ids := [draw.accessId, draw.refreshId];
    assert ids[0] == draw.accessId && ids[1] == draw.refreshId;
  }

  // ---- accounts ----

  /** A registration is refused as invalid without an address or with less than eight bytes
      of password, fails with more than the hash takes or when the tables do not answer,
      clashes with a row that holds the address or the phone number, and misses the role. */
  lemma RegistrationAnswers(w: World, call: Call, outage: Outage, ttl: Lifetimes)
    requires TableOk(w.table) && call.CreateUser? && Possible(w, call) && call.newId !in w.table.rows
    ensures var (after, reply) := Apply(w, call, outage, ttl);
      && (if NormalizeEmail(call.email) == "" || Utf8Length(call.password) < 8 then reply == Failed(InvalidInput)
          else if Utf8Length(call.password) > 72 || outage == TableDown then reply == Failed(Internal)
          else if !Free(w.table, NormalizeEmail(call.email), TrimSpace(call.phone)) then reply == Failed(AlreadyExists)
          else if !Offered(w.table, "customer") then reply == Failed(NotFound)
          else reply.Account?)
      && (reply.Failed? ==> after.table == w.table)
  {
    hide ParseUserId, NormalizeEmail, TrimSpace, RoleNamed, TableOk;
    assert NameList([Role("", "customer")]) == ["customer"];
    OneRoleNamed(w.table, "customer");
  }

  /** The phone number that an update leaves the row with. */
  function NewPhone(row: Row, phone: string): string {
    if TrimSpace(phone) != "" then TrimSpace(phone) else row.phone
  }

  /** An update succeeds exactly for a present user, with a phone number that no other row
      holds, deleted or not. */
  lemma UpdateAnswers(w: World, call: Call, outage: Outage, ttl: Lifetimes)
    requires TableOk(w.table) && call.UpdateUser?
    ensures var (after, reply) := Apply(w, call, outage, ttl);
      var id := ParseUserId(TrimSpace(call.id));
      && (if id.None? then reply == Failed(InvalidInput)
          else if outage == UserLookupDown then reply == Failed(Internal)
          else if !Present(w.table, id.value) then reply == Failed(NotFound)
          else if outage == TableDown then reply == Failed(Internal)
          else if exists i :: i in w.table.rows && i != id.value && NewPhone(w.table.rows[id.value], call.phone) != ""
                              && w.table.rows[i].phone == NewPhone(w.table.rows[id.value], call.phone)
          then reply == Failed(AlreadyExists)
          else reply.Account?)
      && (reply.Failed? ==> after == w)
  {
    hide ParseUserId, TrimSpace, Apply, TableOk;
    NoIdIsEmpty();
    UpdateCases(w, call, outage, ttl);
    var found := FindById(w.table, TrimSpace(call.id));
    if found.Ok? {
      FoundUnderId(w.table, TrimSpace(call.id));
      RowIsCanonical(w.table, found.value.id);
      OthersHoldOther(w.table, found.value);
    }
  }

  lemma NoIdIsEmpty()
    ensures ParseUserId("").None?
  {
  }

  lemma OthersHoldOther(table: Table, row: Row)
    requires TableOk(table) && row.id in table.rows && table.rows[row.id] == row
    ensures forall i :: i in table.rows && i != row.id ==> table.rows[i].email != row.email
  {
    hide ParseUserId, NormalizeEmail;
  }

  /** A deletion, whatever the spelling of the id, marks one present row deleted. */
  lemma DeletionAnswers(w: World, rawId: string, outage: Outage, ttl: Lifetimes)
    requires TableOk(w.table)
    ensures var (after, reply) := Apply(w, Call.DeleteUser(rawId), outage, ttl);
      var id := ParseUserId(TrimSpace(rawId));
      && (if TrimSpace(rawId) == "" then reply == Failed(InvalidInput)
          else if outage == StoreDown then reply == Failed(Internal)
          else if id.None? then reply == Failed(InvalidInput)
          else if outage == TableDown then reply == Failed(Internal)
          else if !Present(w.table, id.value) then reply == Failed(NotFound)
          else reply == Done)
      && (reply.Failed? ==> after.table == w.table)
      && (reply.Done? ==>
          && after.table.rows.Keys == w.table.rows.Keys
          && after.table.rows[id.value].deleted && !after.table.rows[id.value].isActive
          && (forall u :: u in w.table.rows && u != id.value ==> after.table.rows[u] == w.table.rows[u]))
  {
    hide ParseUserId, TrimSpace, TableOk, Erase;
    if FindById(w.table, TrimSpace(rawId)).Ok? {
      FoundUnderId(w.table, TrimSpace(rawId));
    }
  }

  /** A role is assigned, by any spelling of id and role, exactly to a present user who does
      not have it, when it is on offer; the answer is the user's row, and the user has one
      role name more. */
  lemma AssignmentAnswers(w: World, rawId: string, rawRole: string, outage: Outage, ttl: Lifetimes)
    requires TableOk(w.table)
    ensures var (after, reply) := Apply(w, Call.AssignRole(rawId, rawRole), outage, ttl);
      var id, role := ParseUserId(TrimSpace(rawId)), ToLower(TrimSpace(rawRole));
      if TrimSpace(rawId) == "" || role == "" then reply == Failed(InvalidInput)
      else if outage == StoreDown then reply == Failed(Internal)
      else if id.None? then reply == Failed(InvalidInput)
      else if outage == TableDown then reply == Failed(Internal)
      else if !Present(w.table, id.value) || !Offered(w.table, role) then reply == Failed(NotFound)
      else if role in RoleNamesOf(w.table, id.value) then reply == Failed(AlreadyExists)
      else
        && reply == (if outage == UserLookupDown then Failed(Internal) else Account(w.table.rows[id.value]))
        && after.table.rows == w.table.rows
        && multiset(RoleNamesOf(after.table, id.value)) == multiset(RoleNamesOf(w.table, id.value)) + multiset{role}
        && OthersKeepNames(w.table, after.table, id.value)
  {
    hide ParseUserId, TrimSpace, ToLower, TableOk, RoleNamesOf, OthersKeepNames, Offered, UserTable.AssignRole, Erase;
    var id, role := TrimSpace(rawId), ToLower(TrimSpace(rawRole));
    if role != "" {
      AssignAddsName(w.table, id, role);
      ChangeKeepsUser(w.table, id, role);
    }
    if FindById(w.table, id).Ok? {
      FoundUnderId(w.table, id);
    }
  }

  /** A role is revoked exactly from a present user who has it. */
  lemma RevocationAnswers(w: World, rawId: string, rawRole: string, outage: Outage, ttl: Lifetimes)
    requires TableOk(w.table)
    ensures var (after, reply) := Apply(w, Call.RevokeRole(rawId, rawRole), outage, ttl);
      var id, role := ParseUserId(TrimSpace(rawId)), ToLower(TrimSpace(rawRole));
      if TrimSpace(rawId) == "" || role == "" then reply == Failed(InvalidInput)
      else if outage == StoreDown then reply == Failed(Internal)
      else if id.None? then reply == Failed(InvalidInput)
      else if outage == TableDown then reply == Failed(Internal)
      else if !Present(w.table, id.value) || role !in RoleNamesOf(w.table, id.value) then reply == Failed(NotFound)
      else
        && reply == (if outage == UserLookupDown then Failed(Internal) else Account(w.table.rows[id.value]))
        && after.table.rows == w.table.rows
        && multiset(RoleNamesOf(w.table, id.value)) == multiset(RoleNamesOf(after.table, id.value)) + multiset{role}
        && OthersKeepNames(w.table, after.table, id.value)
  {
    hide ParseUserId, TrimSpace, ToLower, TableOk, RoleNamesOf, OthersKeepNames, Offered, UserTable.RevokeRole, Erase;
    var id, role := TrimSpace(rawId), ToLower(TrimSpace(rawRole));
    if role != "" {
      RevokeRemovesName(w.table, id, role);
      ChangeKeepsUser(w.table, id, role);
    }
    if FindById(w.table, id).Ok? {
      FoundUnderId(w.table, id);
    }
  }

  // ---- outages ----

  /** While the store cannot change no call changes it; while the tables cannot change no
      call changes them; and while no session can be looked up a call that presents a token
      changes nothing. */
  lemma OutageKeeps(w: World, call: Call, ttl: Lifetimes)
    ensures Apply(w, call, StoreDown, ttl).0.store == w.store
    ensures Apply(w, call, TableDown, ttl).0.table == w.table
    ensures call.ValidateToken? || call.RefreshToken? || call.Logout? || call.LogoutAll? ==>
              Apply(w, call, SessionLookupDown, ttl) == (w, Failed(InvalidToken))
  {
    hide Validate, ParseUserId, NormalizeEmail, TrimSpace, ToLower, RoleNamesOf, UserTable.AssignRole,
      UserTable.RevokeRole, UserTable.DeleteUser, UserTable.UpdateUser, UserTable.CreateUser, FindByEmail;
    match call
    case Authenticate(_, _, _) => LoginKeepsTables(w, call, ttl);
    case RefreshToken(_, _) => RefreshKeepsTables(w, call, ttl);
    case ValidateToken(token) => ValidationKeepsTables(w, token, None);
    case Logout(token) => ValidationKeepsTables(w, token, Some(Access));
    case LogoutAll(token) => ValidationKeepsTables(w, token, Some(Access));
    case _ =>
  }

  lemma ValidationKeepsTables(w: World, token: Claims, expected: Option<TokenType>)
    ensures Validate(w, token, expected).0.table == w.table
    ensures Validate(w, token, expected).1.Ok? ==> Validate(w, token, expected).0 == w
  {
    hide SessionStore.Delete;
  }

  lemma LoginKeepsTables(w: World, call: Call, ttl: Lifetimes)
    requires call.Authenticate?
    ensures Apply(w, call, StoreDown, ttl).0.store == w.store && Apply(w, call, TableDown, ttl).0.table == w.table
  {
    hide Apply, NormalizeEmail, FindByEmail, RoleNamesOf;
    LoginCases(w, call.email, call.password, call.draw, StoreDown, ttl);
    LoginCases(w, call.email, call.password, call.draw, TableDown, ttl);
  }

  lemma RefreshKeepsTables(w: World, call: Call, ttl: Lifetimes)
    requires call.RefreshToken?
    ensures Apply(w, call, StoreDown, ttl).0.store == w.store && Apply(w, call, TableDown, ttl).0.table == w.table
    ensures Apply(w, call, SessionLookupDown, ttl) == (w, Failed(InvalidToken))
  {
    hide Apply, ParseUserId, RoleNamesOf, Validate;
    RefreshCases(w, call.token, call.draw, StoreDown, ttl);
    RefreshCases(w, call.token, call.draw, TableDown, ttl);
    RefreshCases(w, call.token, call.draw, SessionLookupDown, ttl);
    ValidationKeepsTables(w, call.token, Some(Refresh));
    RenewKeepsStore(w, call, ttl);
  }

  lemma RenewKeepsStore(w: World, call: Call, ttl: Lifetimes)
    requires call.RefreshToken?
    ensures forall row, current, refreshId ::
              Renew(w, row, current, refreshId, call.draw, StoreDown, ttl).0.store == w.store
  {
    hide RoleNamesOf;
    forall row, current, refreshId
      ensures Renew(w, row, current, refreshId, call.draw, StoreDown, ttl).0.store == w.store
    {
      RenewDown(w, row, current, refreshId, call.draw, ttl);
    }
  }

  lemma RenewDown(w: World, row: Row, current: AuthSession, refreshId: string, draw: Draw, ttl: Lifetimes)
    ensures Renew(w, row, current, refreshId, draw, StoreDown, ttl).0.store == w.store
  {
    hide RoleNamesOf, Put;
  }
}
