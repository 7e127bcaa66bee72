/** The user service over the repository and the session cache. Each method makes, call
    by call and in the source's order, the step that the model of the service takes. */
module UserService {
  import opened Domain
  import opened Roles
  import opened Text
  import opened Tokens
  import opened UserTable
  import opened Service
  import opened RedisKeys
  import SessionStore
  import SC = SessionCache
  import UR = UserRepository
  import P = Paging
  import PC = PageCount

  datatype Login = Login(user: User, access: Claims, refresh: Claims)

  class UserService {
    const users: UR.UserRepository
    const sessions: SC.SessionCache
    const ttl: Lifetimes
    var now: int
    var signed: set<Claims>
    ghost var used: set<string>

    constructor (users: UR.UserRepository, sessions: SC.SessionCache, ttl: Lifetimes, now: int)
      ensures this.users == users && this.sessions == sessions && this.ttl == ttl && this.now == now
      ensures signed == {} && used == {}
    {
      this.users, this.sessions, this.ttl, this.now := users, sessions, ttl, now;
      signed, used := {}, {};
    }

    ghost predicate Valid()
      reads this, users, sessions
    {
      Typed(sessions.db) && TableOk(users.State())
    }

    ghost function World(): World
      requires Valid()
      reads this, users, sessions
    {
      Service.World(now, users.State(), Load(sessions.db), signed, used)
    }

    // ---- tokens ----

    method IssueTokenPair(user: User, ghost row: Row, sessionId: string, createdAt: int, draw: Draw)
      returns (access: Claims, refresh: Claims, session: AuthSession)
      requires Valid() && Shows(users.State(), row, user)
      modifies this`signed, this`used
      ensures Valid() && (World(), session) == Mint(old(World()), row, sessionId, createdAt, draw, ttl)
      ensures access == MintToken(session, Access, now, ttl) && refresh == MintToken(session, Refresh, now, ttl)
    {
      hide TableOk, Typed, Load;
      var names := ComputeRoleNames(user.roles);
      ShownRoleNames(users.State(), row, user);
      session := MintSession(user, names, sessionId, createdAt, now, draw.accessId, draw.refreshId, ttl);
      access := MintToken(session, Access, now, ttl);
      refresh := MintToken(session, Refresh, now, ttl);
      signed := signed + {access, refresh};
      used := used + {sessionId, draw.accessId, draw.refreshId};
    }

    method ValidateSession(
      token: Claims, expected: Option<TokenType>, outage: Outage)
      returns (result: Outcome<AuthSession>)
      requires Valid()
      modifies sessions
      ensures Valid() && (World(), result) == ValidateUnder(old(World()), token, expected, outage)
    {
      hide TableOk, Typed, Load, SessionStore.Get, Parses, Validate, ValidateUnder;
      ValidateCases(World(), token, expected, outage);
      if token !in signed || !Parses(token, now) {
        return Err(InvalidToken);
      }
      if expected.Some? && token.kind != expected.value {
        return Err(InvalidToken);
      }
      var got := sessions.Get(now, token.sessionId, outage != SessionLookupDown, outage != StoreDown);
      if got.Err? {
        return Err(InvalidToken);
      }
      var session := got.value;
      if session.userId != token.subject || session.email != token.email || session.roles != token.roles {
        return Err(InvalidToken);
      }
      match token.kind {
        case Access => if session.accessId != token.id { return Err(InvalidToken); }
        case Refresh => if session.refreshId != token.id { return Err(InvalidToken); }
      }
      return Ok(session);
    }

    method ValidateToken(token: Claims, outage: Outage) returns (result: Outcome<Claims>)
      requires Valid()
      modifies sessions
      ensures Valid() && World() == Apply(old(World()), Call.ValidateToken(token), outage, ttl).0
      ensures result == if Apply(old(World()), Call.ValidateToken(token), outage, ttl).1 == Identity(token)
                        then Ok(token) else Err(InvalidToken)
    {
      hide TableOk, Typed, Load, Validate;
      var checked := ValidateSession(token, None, outage);
      return if checked.Ok? then Ok(token) else Err(InvalidToken);
    }

    lemma ValidateCases(w: World, token: Claims, expected: Option<TokenType>, outage: Outage)
      ensures token !in w.signed || !Parses(token, w.now) || (expected.Some? && token.kind != expected.value) ==>
                ValidateUnder(w, token, expected, outage) == (w, Err(InvalidToken))
      ensures token in w.signed && Parses(token, w.now) && (expected.None? || token.kind == expected.value) ==>
                var (store, got) := SessionStore.Get(w.store, w.now, token.sessionId);
                ValidateUnder(w, token, expected, outage) ==
                (if outage in {SessionLookupDown, StoreDown} then w else w.(store := store),
                 if outage != SessionLookupDown && got.Ok? && Fits(token, got.value) then Ok(got.value)
                 else Err(InvalidToken))
    {
      hide SessionStore.Get, Parses, Fits;
    }

    /** A token that validates names a session and a user. */
    lemma NamesSession(w: World, token: Claims, expected: Option<TokenType>, outage: Outage)
      ensures ValidateUnder(w, token, expected, outage).1.Ok? ==> token.sessionId != "" && token.subject != ""
    {
    }

    // ---- sessions ----

    method Authenticate(email: string, password: string, draw: Draw, outage: Outage) returns (result: Outcome<Login>)
      requires Valid()
      modifies this, users, sessions
      ensures Valid()
      ensures var (after, reply) := Apply(old(World()), Call.Authenticate(email, password, draw), outage, ttl);
        && World() == after
        && (match reply
            case Pair(access, refresh) =>
              && result.Ok? && result.value.access == access && result.value.refresh == refresh
              && FindByEmail(users.State(), NormalizeEmail(email)).Ok?
              && Shows(users.State(), FindByEmail(users.State(), NormalizeEmail(email)).value, result.value.user)
            case Failed(error) => result == Err(error)
            case _ => false)
    {
      hide TableOk, Typed, Load, NormalizeEmail, FindByEmail, Mint, SessionStore.CreateUnder, MintToken,
        GrantedRoles, Apply;
      LoginCases(World(), email, password, draw, outage, ttl);
      var normalized := NormalizeEmail(email);
      if normalized == "" || password == "" {
        return Err(InvalidPassword);
      }
      var found := users.GetByEmail(normalized, outage != UserLookupDown);
      if found.Err? {
        return Err(InvalidPassword);
      }
      var user := found.value;
      ghost var row := FindByEmail(users.State(), normalized).value;
      if user.password != PasswordHash(password) {
        return Err(InvalidPassword);
      }
      if user.status != Active {
        return Err(Forbidden);
      }
      var createdAt := now;
      var access, refresh, session := IssueTokenPair(user, row, draw.sessionId, createdAt, draw);
      now := now + draw.delay;
      var created := sessions.Create(now, session, ttl.refresh, outage != StoreDown);
      if created.Err? {
        return Err(created.error);
      }
      return Ok(Login(user, access, refresh));
    }

    method RefreshToken(token: Claims, draw: Draw, outage: Outage) returns (result: Outcome<(Claims, Claims)>)
      requires Valid()
      modifies this, sessions
      ensures Valid()
      ensures var (after, reply) := Apply(old(World()), Call.RefreshToken(token, draw), outage, ttl);
        && World() == after
        && (match reply
            case Pair(access, refresh) => result == Ok((access, refresh))
            case Failed(error) => result == Err(error)
            case _ => false)
    {
      hide TableOk, Typed, Load, ValidateUnder, ParseUserId, Mint, SessionStore.RotateUnder, SC.RotateRaced,
        SC.RivalsTyped, SC.Alone, RoleNamesOf, MintToken, GrantedRoles, Apply;
      RefreshCases(World(), token, draw, outage, ttl);
      var checked := ValidateSession(token, Some(Refresh), outage);
      if checked.Err? {
        return Err(InvalidToken);
      }
      var current := checked.value;
      var found := users.GetByID(token.subject, outage != UserLookupDown);
      if found.Err? {
        return Err(InvalidToken);
      }
      var user := found.value;
      ghost var row := FindById(users.State(), token.subject).value;
      if user.status != Active {
        return Err(Forbidden);
      }
      var access, refresh, next := IssueTokenPair(user, row, current.id, current.createdAt, draw);
      now := now + draw.delay;
      SC.AloneIsAtomic(Load(sessions.db), now, current.id, token.id, next, ttl.refresh, outage != StoreDown);
      var rotated := sessions.Rotate(now, current.id, token.id, next, ttl.refresh, SC.Alone(outage != StoreDown));
      if rotated.Err? {
        return Err(rotated.error);
      }
      return Ok((access, refresh));
    }

    method Logout(token: Claims, outage: Outage) returns (result: Outcome<()>)
      requires Valid()
      modifies sessions
      ensures Valid()
      ensures var (after, reply) := Apply(old(World()), Call.Logout(token), outage, ttl);
        World() == after && result == (if reply.Failed? then Err(reply.error) else Ok(()))
    {
      hide TableOk, Typed, Load, Validate, SessionStore.Delete;
      var checked := ValidateSession(token, Some(Access), outage);
      if checked.Err? {
        return Err(InvalidToken);
      }
      NamesSession(old(World()), token, Some(Access), outage);
      result := sessions.Delete(now, token.sessionId, outage != StoreDown);
    }

    method LogoutAll(token: Claims, outage: Outage) returns (result: Outcome<()>)
      requires Valid()
      modifies sessions
      ensures Valid()
      ensures var (after, reply) := Apply(old(World()), Call.LogoutAll(token), outage, ttl);
        World() == after && result == (if reply.Failed? then Err(reply.error) else Ok(()))
    {
      hide TableOk, Typed, Load, Validate, SessionStore.DeleteAllForUser;
      var checked := ValidateSession(token, Some(Access), outage);
      if checked.Err? {
        return Err(InvalidToken);
      }
      NamesSession(old(World()), token, Some(Access), outage);
      var wiped := sessions.DeleteAllForUser(now, token.subject, outage != StoreDown);
      if wiped.Err? {
        return Err(wiped.error);
      }
      return Ok(());
    }

    // ---- accounts ----

    method DeleteUser(rawId: string, outage: Outage) returns (result: Outcome<()>)
      requires Valid()
      modifies users, sessions
      ensures Valid()
      ensures var (after, reply) := Apply(old(World()), Call.DeleteUser(rawId), outage, ttl);
        && World() == after && result.Err? == reply.Failed?
        && (reply.Failed? ==> result == Err(reply.error))
    {
      hide TableOk, Typed, Load, TrimSpace, SessionStore.DeleteAllForUser, UserTable.DeleteUser;
      var id := TrimSpace(rawId);
      if id == "" {
        return Err(InvalidInput);
      }
      var wiped := sessions.DeleteAllForUser(now, id, outage != StoreDown);
      if wiped.Err? {
        return Err(wiped.error);
      }
      DeleteKeepsTable(users.State(), id);
      result := users.Delete(id, outage != TableDown);
    }

    method AssignRole(rawId: string, rawRole: string, outage: Outage) returns (result: Outcome<User>)
      requires Valid()
      modifies users, sessions
      ensures Valid()
      ensures var (after, reply) := Apply(old(World()), Call.AssignRole(rawId, rawRole), outage, ttl);
        && World() == after && result.Err? == reply.Failed?
        && (reply.Failed? ==> result == Err(reply.error))
        && (reply.Account? ==> Shows(users.State(), reply.row, result.value))
    {
      hide TableOk, Typed, Load, TrimSpace, ToLower, ParseUserId, RoleNamed, SessionStore.DeleteAllForUser;
      var id, role := TrimSpace(rawId), ToLower(TrimSpace(rawRole));
      if id == "" || role == "" {
        return Err(InvalidInput);
      }
      var wiped := sessions.DeleteAllForUser(now, id, outage != StoreDown);
      if wiped.Err? {
        return Err(wiped.error);
      }
      GrantsKeepTable(users.State(), id, role);
      var granted := users.AssignRole(id, role, outage != TableDown);
      if granted.Err? {
        return Err(granted.error);
      }
      result := users.GetByID(id, outage != UserLookupDown);
    }

    method RevokeRole(rawId: string, rawRole: string, outage: Outage) returns (result: Outcome<User>)
      requires Valid()
      modifies users, sessions
      ensures Valid()
      ensures var (after, reply) := Apply(old(World()), Call.RevokeRole(rawId, rawRole), outage, ttl);
        && World() == after && result.Err? == reply.Failed?
        && (reply.Failed? ==> result == Err(reply.error))
        && (reply.Account? ==> Shows(users.State(), reply.row, result.value))
    {
      hide TableOk, Typed, Load, TrimSpace, ToLower, ParseUserId, RoleNamed, SessionStore.DeleteAllForUser;
      var id, role := TrimSpace(rawId), ToLower(TrimSpace(rawRole));
      if id == "" || role == "" {
        return Err(InvalidInput);
      }
      var wiped := sessions.DeleteAllForUser(now, id, outage != StoreDown);
      if wiped.Err? {
        return Err(wiped.error);
      }
      GrantsKeepTable(users.State(), id, role);
      var revoked := users.RevokeRole(id, role, outage != TableDown);
      if revoked.Err? {
        return Err(revoked.error);
      }
      result := users.GetByID(id, outage != UserLookupDown);
    }

    method CreateUser(
      email: string, password: string, firstName: string, lastName: string, phone: string, newId: string,
      outage: Outage)
      returns (result: Outcome<Row>)
      requires Valid() && ParseUserId(newId) == Some(newId)
      modifies this`used, users
      ensures Valid()
      ensures var (after, reply) :=
                Apply(old(World()), Call.CreateUser(email, password, firstName, lastName, phone, newId), outage, ttl);
        && World() == after
        && result == (
             if reply.Account? then Ok(reply.row) else if reply.Failed? then Err(reply.error) else Err(Internal))
    {
      hide TableOk, Typed, Load, TrimSpace, NormalizeEmail, ParseUserId, UserTable.CreateUser;
      var normalized := NormalizeEmail(email);
      if normalized == "" || Utf8Length(password) < MINIMUM_PASSWORD_LENGTH {
        return Err(InvalidInput);
      }
      if Utf8Length(password) > MAXIMUM_PASSWORD_LENGTH {
        return Err(Internal);
      }
      var user := User(
        "", normalized, PasswordHash(password), TrimSpace(firstName), TrimSpace(lastName), TrimSpace(phone),
        Active, [Role("", "customer")]);
      NormalizeEmailIsStable(email);
      CreateKeepsTable(users.State(), user, newId);
      result := users.Create(user, newId, outage != TableDown);
      if outage != TableDown {
        used := used + {newId};
      }
    }

    method UpdateUser(rawId: string, firstName: string, lastName: string, phone: string, outage: Outage)
      returns (result: Outcome<Row>)
      requires Valid()
      modifies users
      ensures Valid()
      ensures
        var (after, reply) := Apply(old(World()), Call.UpdateUser(rawId, firstName, lastName, phone), outage, ttl);
        && World() == after
        && result == (
             if reply.Account? then Ok(reply.row) else if reply.Failed? then Err(reply.error) else Err(Internal))
    {
      hide TableOk, Typed, Load, TrimSpace, NormalizeEmail, ParseUserId, Apply, GrantedRoles, UserTable.UpdateUser;
      UpdateCases(World(), Call.UpdateUser(rawId, firstName, lastName, phone), outage, ttl);
      var id := TrimSpace(rawId);
      if id == "" {
        return Err(InvalidInput);
      }
      var found := users.GetByID(id, outage != UserLookupDown);
      if found.Err? {
        return Err(found.error);
      }
      var user := found.value;
      ghost var row := FindById(users.State(), id).value;
      FoundIsOk(users.State(), id);
      if TrimSpace(firstName) != "" {
        user := user.(firstName := TrimSpace(firstName));
      }
      if TrimSpace(lastName) != "" {
        user := user.(lastName := TrimSpace(lastName));
      }
      if TrimSpace(phone) != "" {
        user := user.(phone := TrimSpace(phone));
      }
      UpdateKeepsTable(users.State(), user);
      UpdateIgnoresRoles(users.State(), user);
      result := users.Update(user, outage != TableDown);
    }

    lemma FoundIsOk(table: Table, id: string)
      requires TableOk(table) && FindById(table, id).Ok?
      ensures NormalizeEmail(FindById(table, id).value.email) == FindById(table, id).value.email
      ensures ParseUserId(FindById(table, id).value.id).Some?
    {
      hide NormalizeEmail, ParseUserId;
    }

    /** An update writes the columns of the row, not the roles. */
    lemma UpdateIgnoresRoles(table: Table, user: User)
      ensures UserTable.UpdateUser(table, user) == UserTable.UpdateUser(table, user.(roles := []))
    {
      hide ParseUserId;
    }

    /** The page of users that the client asked for; `xs` is the order in which the query
        yields the matching rows. */
    method ListUsers(request: P.Request, xs: seq<string>, outage: Outage) returns (result: Outcome<P.Response<User>>)
      requires Valid() && P.EachOnce(P.Matching(users.State(), request.status), xs)
      ensures outage != TableDown ==>
                match P.ListUsers(xs, request)
                case Ok(answer) =>
                  && result.Ok? && users.ShowAll(answer.users, result.value.users)
                  && UR.UserRepository.OfStatus(result.value.users, request.status)
                  && answer.totalItems ==
                     |set id | id in users.rows && !users.rows[id].deleted && (
                                 || request.status == ""
                                 || (request.status == "active" && users.rows[id].isActive)
                                 || (request.status == "suspended" && !users.rows[id].isActive))|
                  && result.value.(users := []) == P.Response(
                       [], answer.totalItems, answer.totalPages, answer.page, answer.perPage)
                  && answer.totalItems == |P.Matching(users.State(), request.status)|
                case Err(error) => result == Err(error)
      ensures outage == TableDown ==> result.Err?
    {
      hide PC.TotalPages, P.Skipped;
      var page, perPage := request.page, request.perPage;
      if page <= 0 {
        page := 1;
      }
      if perPage <= 0 || perPage > 100 {
        perPage := 20;
      }
      var clamped := P.Request(page, perPage, request.status);
      var listed := users.List(clamped, xs, outage != TableDown);
      if listed.Err? {
        return Err(listed.error);
      }
      var (found, total) := listed.value;
      return Ok(P.Response(found, total, PC.TotalPages(total, perPage), page, perPage));
    }
  }
}
