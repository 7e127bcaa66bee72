/** The calls of the user service, each as one atomic step on the tables, the session
    store and the clock. */
module Service {
  import opened Domain
  import opened Keyspace
  import opened Text
  import opened Tokens
  import opened UserTable
  import SessionStore

  const MINIMUM_PASSWORD_LENGTH: nat := 8
  const MAXIMUM_PASSWORD_LENGTH: nat := 72 // what the hash accepts

  /** `signed` is every token issued, `used` every identifier handed out. */
  datatype World = World(now: int, table: Table, store: Store, signed: set<Claims>, used: set<string>)

  /** Which command, if any, fails cleanly: the GET of a session, a deletion or storing of
      sessions, a query for a user, or a change of the tables. */
  datatype Outage = Healthy | SessionLookupDown | StoreDown | UserLookupDown | TableDown

  /** The nondeterminism of a call that mints: new identifiers, and the time that
      passes between minting the pair and storing it. */
  datatype Draw = Draw(sessionId: string, accessId: string, refreshId: string, delay: nat)

  datatype Call =
    | CreateUser(email: string, password: string, firstName: string, lastName: string, phone: string, newId: string)
    | UpdateUser(id: string, firstName: string, lastName: string, phone: string)
    | DeleteUser(id: string)
    | AssignRole(id: string, role: string)
    | RevokeRole(id: string, role: string)
    | Authenticate(email: string, password: string, draw: Draw)
    | ValidateToken(token: Claims)
    | RefreshToken(token: Claims, draw: Draw)
    | Logout(token: Claims)
    | LogoutAll(token: Claims)
    | Wait(duration: nat)

  datatype Reply =
    | Done
    | Account(row: Row)
    | Pair(access: Claims, refresh: Claims)
    | Identity(claims: Claims)
    | Failed(error: Error)

  // ---- tokens ----

  function ParseToken(w: World, token: Claims): Outcome<Claims> {
    if token in w.signed && Parses(token, w.now) then Ok(token) else Err(InvalidToken)
  }

  /** The session a token names, if the token agrees with it. */
  function Validate(w: World, token: Claims, expected: Option<TokenType>): (World, Outcome<AuthSession>) {
    var parsed := ParseToken(w, token);
    if parsed.Err? || (expected.Some? && token.kind != expected.value) then (w, Err(InvalidToken))
    else
      var (store, got) := SessionStore.Get(w.store, w.now, token.sessionId);
      var after := w.(store := store);
      if got.Ok? && Fits(token, got.value) then (after, Ok(got.value)) else (after, Err(InvalidToken))
  }

  /** A failing GET refuses the token; a failing deletion of an expired session is ignored. */
  function ValidateUnder(
    w: World, token: Claims, expected: Option<TokenType>, outage: Outage): (World, Outcome<AuthSession>)
  {
    var (after, result) := Validate(w, token, expected);
    (if outage in {SessionLookupDown, StoreDown} then w else after,
     if outage == SessionLookupDown then Err(InvalidToken) else result)
  }

  /** issueTokenPair for the row as it stands. */
  ghost function Mint(
    w: World, row: Row, sessionId: string, createdAt: int, draw: Draw, ttl: Lifetimes): (World, AuthSession)
  {
    var session := MintSession(
      UserOf(row), RoleNamesOf(w.table, row.id), sessionId, createdAt, w.now, draw.accessId, draw.refreshId, ttl);
    (w.(signed := w.signed + {MintToken(session, Access, w.now, ttl), MintToken(session, Refresh, w.now, ttl)},
        used := w.used + {sessionId, draw.accessId, draw.refreshId}),
     session)
  }

  function UserOf(row: Row): User {
    User(row.id, row.email, row.password, row.firstName, row.lastName, row.phone, StatusOf(row), [])
  }

  // ---- the calls ----

  function WithStore(w: World, result: (Store, Outcome<()>)): (World, Reply) {
    (w.(store := result.0), if result.1.Ok? then Done else Failed(result.1.error))
  }

  function WithTable<T>(w: World, result: (Table, Outcome<T>)): (World, Reply) {
    (w.(table := result.0), if result.1.Ok? then Done else Failed(result.1.error))
  }

  function CreateUserCall(w: World, call: Call, outage: Outage): (World, Reply)
    requires call.CreateUser?
  {
    var email := NormalizeEmail(call.email);
    if email == "" || Utf8Length(call.password) < MINIMUM_PASSWORD_LENGTH then (w, Failed(InvalidInput))
    else if Utf8Length(call.password) > MAXIMUM_PASSWORD_LENGTH || outage == TableDown then (w, Failed(Internal))
    else
      var user := User(
        "", email, PasswordHash(call.password), TrimSpace(call.firstName), TrimSpace(call.lastName),
        TrimSpace(call.phone), Active, [Role("", "customer")]);
      var (table, result) := UserTable.CreateUser(w.table, user, call.newId);
      (w.(table := table, used := w.used + {call.newId}),
       if result.Ok? then Account(result.value) else Failed(result.error))
  }

  function Overlay(current: string, given: string): string {
    if TrimSpace(given) != "" then TrimSpace(given) else current
  }

  /** The row's user with the fields that the call gives. */
  function Overlaid(row: Row, call: Call): User
    requires call.UpdateUser?
  {
    UserOf(row).(
      firstName := Overlay(row.firstName, call.firstName),
      lastName := Overlay(row.lastName, call.lastName),
      phone := Overlay(row.phone, call.phone))
  }

  function UpdateUserCall(w: World, call: Call, outage: Outage): (World, Reply)
    requires call.UpdateUser?
  {
    var id := TrimSpace(call.id);
    var found := FindById(w.table, id);
    if id == "" || ParseUserId(id).None? then (w, Failed(InvalidInput))
    else if outage == UserLookupDown then (w, Failed(Internal))
    else if found.Err? then (w, Failed(found.error))
    else if outage == TableDown then (w, Failed(Internal))
    else
      var (table, result) := UserTable.UpdateUser(w.table, Overlaid(found.value, call));
      (w.(table := table), if result.Ok? then Account(result.value) else Failed(result.error))
  }

  /** Sessions go first; the table changes only when they are gone. */
  function AfterRevocation<T>(
    w: World, id: string, outage: Outage, change: Table -> (Table, Outcome<T>)): (World, Reply)
  {
    if outage == StoreDown then (w, Failed(Internal))
    else
      var (store, wiped) := SessionStore.DeleteAllForUser(w.store, w.now, id);
      var after := w.(store := store);
      if wiped.Err? then (after, Failed(wiped.error))
      else if outage == TableDown then (after, Failed(if ParseUserId(id).None? then InvalidInput else Internal))
      else WithTable(after, change(after.table))
  }

  function DeleteUserCall(w: World, rawId: string, outage: Outage): (World, Reply) {
    var id := TrimSpace(rawId);
    if id == "" then (w, Failed(InvalidInput))
    else AfterRevocation(w, id, outage, table => UserTable.DeleteUser(table, id))
  }

  ghost function ChangeRoleCall(
    w: World, rawId: string, rawRole: string, assign: bool, outage: Outage): (World, Reply)
  {
    var id, role := TrimSpace(rawId), ToLower(TrimSpace(rawRole));
    if id == "" || role == "" then (w, Failed(InvalidInput))
    else
      var (after, reply) := AfterRevocation(w, id, outage, table =>
        if assign then UserTable.AssignRole(table, id, role) else UserTable.RevokeRole(table, id, role));
      // The change is committed before the user is read back.
      (after,
       if !reply.Done? then reply
       else if outage == UserLookupDown then Failed(Internal)
       else Account(FindById(after.table, id).value))
  }

  ghost function AuthenticateCall(w: World, call: Call, outage: Outage, ttl: Lifetimes): (World, Reply)
    requires call.Authenticate?
  {
    var email := NormalizeEmail(call.email);
    var found := FindByEmail(w.table, email);
    if email == "" || call.password == "" then (w, Failed(InvalidPassword))
    else if outage == UserLookupDown || found.Err? then (w, Failed(InvalidPassword))
    else if found.value.password != PasswordHash(call.password) then (w, Failed(InvalidPassword))
    else if StatusOf(found.value) != Active then (w, Failed(Forbidden))
    else Open(w, found.value, call.draw, outage, ttl)
  }

  /** The part of a login that mints a pair and stores a new session with it. */
  ghost function Open(w: World, row: Row, draw: Draw, outage: Outage, ttl: Lifetimes): (World, Reply) {
    var (minted, session) := Mint(w, row, draw.sessionId, w.now, draw, ttl);
    var later := minted.(now := w.now + draw.delay);
    var (store, created) := SessionStore.CreateUnder(later.store, later.now, session, ttl.refresh, outage != StoreDown);
    (later.(store := store),
     if created.Ok? then Pair(MintToken(session, Access, w.now, ttl), MintToken(session, Refresh, w.now, ttl))
     else Failed(created.error))
  }

  ghost function RefreshTokenCall(w: World, call: Call, outage: Outage, ttl: Lifetimes): (World, Reply)
    requires call.RefreshToken?
  {
    var (checked, current) := ValidateUnder(w, call.token, Some(Refresh), outage);
    if current.Err? then (checked, Failed(InvalidToken))
    else
      var found := FindById(checked.table, call.token.subject);
      if outage == UserLookupDown || found.Err? then (checked, Failed(InvalidToken))
      else if StatusOf(found.value) != Active then (checked, Failed(Forbidden))
      else Renew(checked, found.value, current.value, call.token.id, call.draw, outage, ttl)
  }

  /** The part of a refresh that mints the next pair and rotates the session to it. */
  ghost function Renew(
    w: World, row: Row, current: AuthSession, refreshId: string, draw: Draw, outage: Outage,
    ttl: Lifetimes): (World, Reply)
  {
    var (minted, next) := Mint(w, row, current.id, current.createdAt, draw, ttl);
    var later := minted.(now := w.now + draw.delay);
    var (store, rotated) := SessionStore.RotateUnder(
      later.store, later.now, current.id, refreshId, next, ttl.refresh, outage != StoreDown);
    (later.(store := store),
     if rotated.Ok? then Pair(MintToken(next, Access, w.now, ttl), MintToken(next, Refresh, w.now, ttl))
     else Failed(rotated.error))
  }

  function LogoutCall(w: World, token: Claims, outage: Outage): (World, Reply) {
    var (checked, current) := ValidateUnder(w, token, Some(Access), outage);
    if current.Err? then (checked, Failed(InvalidToken))
    else if outage == StoreDown then (checked, Failed(Internal))
    else (checked.(store := SessionStore.Delete(checked.store, checked.now, token.sessionId)), Done)
  }

  function LogoutAllCall(w: World, token: Claims, outage: Outage): (World, Reply) {
    var (checked, current) := ValidateUnder(w, token, Some(Access), outage);
    if current.Err? then (checked, Failed(InvalidToken))
    else if outage == StoreDown then (checked, Failed(Internal))
    else WithStore(checked, SessionStore.DeleteAllForUser(checked.store, checked.now, token.subject))
  }

  ghost function Apply(w: World, call: Call, outage: Outage, ttl: Lifetimes): (World, Reply) {
    match call
    case CreateUser(_, _, _, _, _, _) => CreateUserCall(w, call, outage)
    case UpdateUser(_, _, _, _) => UpdateUserCall(w, call, outage)
    case DeleteUser(id) => DeleteUserCall(w, id, outage)
    case AssignRole(id, role) => ChangeRoleCall(w, id, role, true, outage)
    case RevokeRole(id, role) => ChangeRoleCall(w, id, role, false, outage)
    case Authenticate(_, _, _) => AuthenticateCall(w, call, outage, ttl)
    case ValidateToken(token) =>
      var (checked, current) := ValidateUnder(w, token, None, outage);
      (checked, if current.Ok? then Identity(token) else Failed(InvalidToken))
    case RefreshToken(_, _) => RefreshTokenCall(w, call, outage, ttl)
    case Logout(token) => LogoutCall(w, token, outage)
    case LogoutAll(token) => LogoutAllCall(w, token, outage)
    case Wait(d) => (w.(now := w.now + d), Done)
  }

  // ---- the calls case by case ----

  lemma LoginCases(w: World, email: string, password: string, draw: Draw, outage: Outage, ttl: Lifetimes)
    ensures var found := FindByEmail(w.table, NormalizeEmail(email));
      var (after, reply) := Apply(w, Call.Authenticate(email, password, draw), outage, ttl);
      if NormalizeEmail(email) == "" || password == "" || outage == UserLookupDown || found.Err?
         || found.value.password != PasswordHash(password)
      then after == w && reply == Failed(InvalidPassword)
      else if StatusOf(found.value) != Active then after == w && reply == Failed(Forbidden)
      else (after, reply) == Open(w, found.value, draw, outage, ttl)
  {
    hide NormalizeEmail, FindByEmail, Open;
  }

  lemma RefreshCases(w: World, token: Claims, draw: Draw, outage: Outage, ttl: Lifetimes)
    ensures var (checked, current) := ValidateUnder(w, token, Some(Refresh), outage);
      var (after, reply) := Apply(w, Call.RefreshToken(token, draw), outage, ttl);
      && (current.Err? ==> after == checked && reply == Failed(InvalidToken))
      && (current.Ok? ==>
          var found := FindById(checked.table, token.subject);
          && (outage == UserLookupDown || found.Err? ==> after == checked && reply == Failed(InvalidToken))
          && (outage != UserLookupDown && found.Ok? ==>
              if StatusOf(found.value) != Active then after == checked && reply == Failed(Forbidden)
              else (after, reply) == Renew(checked, found.value, current.value, token.id, draw, outage, ttl)))
  {
    hide ValidateUnder, ParseUserId, Renew;
  }

  lemma UpdateCases(w: World, call: Call, outage: Outage, ttl: Lifetimes)
    requires call.UpdateUser?
    ensures var id := TrimSpace(call.id);
      var found := FindById(w.table, id);
      var (after, reply) := Apply(w, call, outage, ttl);
      && (id == "" || ParseUserId(id).None? ==> after == w && reply == Failed(InvalidInput))
      && (id != "" && ParseUserId(id).Some? ==>
          && (outage == UserLookupDown ==> after == w && reply == Failed(Internal))
          && (outage != UserLookupDown && found.Err? ==> after == w && reply == Failed(found.error))
          && (outage == TableDown && found.Ok? ==> after == w && reply == Failed(Internal))
          && (outage !in {UserLookupDown, TableDown} && found.Ok? ==>
              var (table, result) := UserTable.UpdateUser(w.table, Overlaid(found.value, call));
              after == w.(table := table) && reply == (
                if result.Ok? then Account(result.value) else Failed(result.error))))
  {
    hide ParseUserId, TrimSpace, UserTable.UpdateUser;
  }

  // ---- runs ----

  predicate NewIds(w: World, ids: seq<string>) {
    && (forall i :: 0 <= i < |ids| ==> ids[i] != "" && ids[i] !in w.used)
    && (forall i, j :: 0 <= i < j < |ids| ==> ids[i] != ids[j])
  }

  /** The identifier supply never repeats itself, and new user ids are canonical. */
  predicate Possible(w: World, call: Call) {
    match call
    case CreateUser(_, _, _, _, _, newId) => NewIds(w, [newId]) && ParseUserId(newId) == Some(newId)
    case Authenticate(_, _, draw) => NewIds(w, [draw.sessionId, draw.accessId, draw.refreshId])
    case RefreshToken(_, draw) => NewIds(w, [draw.accessId, draw.refreshId])
    case _ => true
  }

  /** The call names its user by the stored spelling of the id. */
  predicate Canonical(call: Call) {
    call.DeleteUser? || call.AssignRole? || call.RevokeRole? ==>
      ParseUserId(TrimSpace(call.id)) != None ==> ParseUserId(TrimSpace(call.id)) == Some(TrimSpace(call.id))
  }

  type Step = (Call, Outage)

  ghost predicate CanRun(w: World, steps: seq<Step>, ttl: Lifetimes)
    decreases |steps|
  {
    steps == [] ||
    (Possible(w, steps[0].0) && CanRun(Apply(w, steps[0].0, steps[0].1, ttl).0, steps[1..], ttl))
  }

  ghost function After(w: World, steps: seq<Step>, ttl: Lifetimes): World
    decreases |steps|
  {
    if steps == [] then w else After(Apply(w, steps[0].0, steps[0].1, ttl).0, steps[1..], ttl)
  }

  /** Start-up: nobody is logged in, and the tables are consistent. */
  ghost predicate Initial(w: World) {
    && w.now > ZERO_TIME
    && TableOk(w.table)
    && w.store == Store(map[], map[])
    && w.signed == {}
  }
}
