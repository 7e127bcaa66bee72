/** The user, role and user_role tables, and what each repository transaction does
    to them. A transaction that fails leaves the tables as they were. */
module UserTable {
  import opened Domain
  import opened Roles
  import opened Text

  datatype Row = Row(
    id: string,
    email: string,
    password: PasswordHash,
    firstName: string,
    lastName: string,
    phone: string,
    isActive: bool,
    deleted: bool)

  datatype RoleRow = RoleRow(id: string, name: string, deleted: bool)

  datatype Table = Table(
    rows: map<string, Row>,
    roles: map<string, RoleRow>,
    grants: set<(string, string)>)

  predicate Present(table: Table, id: string) {
    id in table.rows && !table.rows[id].deleted
  }

  /** The unique indexes on email and on non-empty phone numbers cover deleted rows too. */
  predicate Clashes(table: Table, id: string, email: string, phone: string) {
    exists i :: i in table.rows && i != id &&
      (table.rows[i].email == email || (phone != "" && table.rows[i].phone == phone))
  }

  function NameList(roles: seq<Role>): seq<string> {
    seq(|roles|, i requires 0 <= i < |roles| => roles[i].name)
  }

  function RoleIdsNamed(table: Table, names: seq<string>): set<string> {
    set r | r in table.roles && table.roles[r].name in names && !table.roles[r].deleted
  }

  function StatusOf(row: Row): Status {
    if row.deleted then Deleted else if row.isActive then Active else Suspended
  }

  function RowOf(user: User, id: string): Row {
    Row(id, user.email, user.password, user.firstName, user.lastName, user.phone,
        user.status == Active, user.status == Deleted)
  }

  /** The record of a user shows that user again, field by field. */
  lemma RowShowsUser(user: User, id: string)
    ensures var row := RowOf(user, id);
      && row.id == id && row.email == user.email && row.password == user.password
      && row.firstName == user.firstName && row.lastName == user.lastName && row.phone == user.phone
      && StatusOf(row) == user.status
      && (row.isActive <==> user.status == Active) && (row.deleted <==> user.status == Deleted)
  {
  }

  /** The id a record gets: a parsed one, or a new one when the user has none. */
  function RecordId(user: User, newId: string): Option<string> {
    if user.id == "" then Some(newId) else ParseUserId(user.id)
  }

  function CreateUser(table: Table, user: User, newId: string): (Table, Outcome<Row>) {
    var id := RecordId(user, newId);
    var names := NameList(user.roles);
    var found := RoleIdsNamed(table, names);
    if id.None? then (table, Err(InvalidInput))
    else if id.value in table.rows || Clashes(table, id.value, user.email, user.phone) then (table, Err(AlreadyExists))
    else if names != [] && |found| != |names| then (table, Err(NotFound))
    else
      var row := RowOf(user, id.value);
      (Table(table.rows[id.value := row], table.roles, table.grants + (set r | r in found :: (id.value, r))), Ok(row))
  }

  /** The row that an id in any accepted spelling names, unless it is deleted. */
  function FindById(table: Table, id: string): Outcome<Row> {
    var parsed := ParseUserId(id);
    if parsed.None? then Err(InvalidInput)
    else if !Present(table, parsed.value) then Err(NotFound)
    else Ok(table.rows[parsed.value])
  }

  ghost function FindByEmail(table: Table, email: string): Outcome<Row> {
    if exists id :: Present(table, id) && table.rows[id].email == email then
      var id :| Present(table, id) && table.rows[id].email == email;
      Ok(table.rows[id])
    else Err(NotFound)
  }

  function UpdateUser(table: Table, user: User): (Table, Outcome<Row>) {
    var id := RecordId(user, "");
    if id.None? then (table, Err(InvalidInput))
    else if !Present(table, id.value) then (table, Err(NotFound))
    else if Clashes(table, id.value, user.email, user.phone) then (table, Err(AlreadyExists))
    else
      var row := RowOf(user, id.value).(deleted := false);
      (table.(rows := table.rows[id.value := row]), Ok(row))
  }

  function DeleteUser(table: Table, id: string): (Table, Outcome<()>) {
    var found := FindById(table, id);
    if found.Err? then (table, Err(found.error))
    else (table.(rows := table.rows[found.value.id := found.value.(deleted := true, isActive := false)]), Ok(()))
  }

  /** The active role of that name; names are unique. */
  ghost function RoleNamed(table: Table, name: string): Option<string> {
    if exists r :: r in RoleIdsNamed(table, [name]) then
      var r :| r in RoleIdsNamed(table, [name]);
      Some(r)
    else None
  }

  ghost function AssignRole(table: Table, id: string, name: string): (Table, Outcome<()>) {
    var found := FindById(table, id);
    var role := RoleNamed(table, name);
    if found.Err? then (table, Err(found.error))
    else if role.None? then (table, Err(NotFound))
    else if (found.value.id, role.value) in table.grants then (table, Err(AlreadyExists))
    else (table.(grants := table.grants + {(found.value.id, role.value)}), Ok(()))
  }

  ghost function RevokeRole(table: Table, id: string, name: string): (Table, Outcome<()>) {
    var found := FindById(table, id);
    var role := RoleNamed(table, name);
    if found.Err? then (table, Err(found.error))
    else if role.None? then (table, Err(NotFound))
    else if (found.value.id, role.value) !in table.grants then (table, Err(NotFound))
    else (table.(grants := table.grants - {(found.value.id, role.value)}), Ok(()))
  }

  // ---- what a user shows ----

  /** The preloaded roles of a user: granted and not deleted. */
  function GrantedRoles(table: Table, id: string): set<Role> {
    set r | r in table.roles && (id, r) in table.grants && !table.roles[r].deleted :: Role(r, table.roles[r].name)
  }

  /** Some arrangement of a set; queries without an ORDER BY promise no particular one. */
  ghost function Arrange<T>(s: set<T>): (xs: seq<T>)
    ensures multiset(xs) == multiset(s)
  {
    if s == {} then []
    else
      var x :| x in s;
      [x] + Arrange(s - {x})
  }

  /** The role names that a token minted for this user carries now. */
  ghost function RoleNamesOf(table: Table, id: string): seq<string> {
    RoleNames(Arrange(GrantedRoles(table, id)))
  }

  /** `user` is the row as the repository returns it, its roles in any order. */
  ghost predicate Shows(table: Table, row: Row, user: User) {
    && user.id == row.id && user.email == row.email && user.password == row.password
    && user.firstName == row.firstName && user.lastName == row.lastName && user.phone == row.phone
    && user.status == StatusOf(row)
    && multiset(user.roles) == multiset(GrantedRoles(table, row.id))
  }

  lemma ShownRoleNames(table: Table, row: Row, user: User)
    requires Shows(table, row, user)
    ensures RoleNames(user.roles) == RoleNamesOf(table, row.id)
  {
    RoleNamesIgnoreOrder(user.roles, Arrange(GrantedRoles(table, row.id)));
  }

  // ---- the table invariant ----

  /** Ids are canonical, addresses normalized; addresses and phone numbers are unique
      over all rows, deleted ones included. */
  ghost predicate RowsOk(rows: map<string, Row>) {
    && (forall id :: id in rows ==>
        && rows[id].id == id && ParseUserId(id) == Some(id)
        && NormalizeEmail(rows[id].email) == rows[id].email)
    && (forall i, j :: i in rows && j in rows && rows[i].email == rows[j].email ==> i == j)
    && (forall i, j :: i in rows && j in rows && rows[i].phone == rows[j].phone != "" ==> i == j)
  }

  ghost predicate TableOk(table: Table) {
    && RowsOk(table.rows)
    && (forall r, q :: r in table.roles && q in table.roles && table.roles[r].name == table.roles[q].name ==> r == q)
    && (forall g :: g in table.grants ==> g.0 in table.rows && g.1 in table.roles)
  }

  lemma FindByEmailFinds(table: Table, id: string)
    requires TableOk(table) && Present(table, id)
    ensures FindByEmail(table, table.rows[id].email) == Ok(table.rows[id])
  {
  }

  lemma RoleNamedFinds(table: Table, r: string)
    requires TableOk(table) && r in table.roles && !table.roles[r].deleted
    ensures RoleNamed(table, table.roles[r].name) == Some(r)
  {
    assert r in RoleIdsNamed(table, [table.roles[r].name]);
  }

  lemma WriteKeepsRows(table: Table, id: string, row: Row)
    requires RowsOk(table.rows)
    requires row.id == id && ParseUserId(id) == Some(id) && NormalizeEmail(row.email) == row.email
    requires !Clashes(table, id, row.email, row.phone)
    ensures RowsOk(table.rows[id := row])
  {
    hide ParseUserId, NormalizeEmail;
  }

  lemma CreateKeepsTable(table: Table, user: User, newId: string)
    requires TableOk(table)
    requires ParseUserId(newId) == Some(newId)
    requires NormalizeEmail(user.email) == user.email
    ensures TableOk(CreateUser(table, user, newId).0)
  {
    hide ParseUserId, NormalizeEmail, RowsOk;
    var id := RecordId(user, newId);
    if user.id != "" && ParseUserId(user.id).Some? {
      ParsedIdIsCanonical(user.id);
    }
    if CreateUser(table, user, newId).1.Ok? {
      WriteKeepsRows(table, id.value, RowOf(user, id.value));
    }
  }

  lemma UpdateKeepsTable(table: Table, user: User)
    requires TableOk(table)
    requires NormalizeEmail(user.email) == user.email
    ensures TableOk(UpdateUser(table, user).0)
  {
    hide ParseUserId, NormalizeEmail, RowsOk;
    var id := RecordId(user, "");
    if UpdateUser(table, user).1.Ok? {
      assert ParseUserId(id.value) == Some(id.value) by { RowIsCanonical(table, id.value); }
      WriteKeepsRows(table, id.value, RowOf(user, id.value).(deleted := false));
    }
  }

  lemma RowIsCanonical(table: Table, id: string)
    requires TableOk(table) && id in table.rows
    ensures ParseUserId(id) == Some(id) && table.rows[id].id == id
  {
  }

  lemma DeleteKeepsTable(table: Table, id: string)
    requires TableOk(table)
    ensures TableOk(DeleteUser(table, id).0)
  {
    hide ParseUserId, NormalizeEmail;
  }

  lemma GrantsKeepTable(table: Table, id: string, name: string)
    requires TableOk(table)
    ensures TableOk(AssignRole(table, id, name).0)
    ensures TableOk(RevokeRole(table, id, name).0)
  {
    var role := RoleNamed(table, name);
    assert role.Some? ==> role.value in RoleIdsNamed(table, [name]);
  }
}
