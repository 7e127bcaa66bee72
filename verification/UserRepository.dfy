/** The user repository over mutable tables. `up` says whether the database answers. */
module UserRepository {
  import opened Domain
  import opened Text
  import opened UserTable
  import opened Paging

  /** The answer of a database that is down, after the id has been parsed. */
  function Down<T>(id: Option<string>): Outcome<T> {
    Err(if id.None? then InvalidInput else Internal)
  }

  class UserRepository {
    var rows: map<string, Row>
    var grants: set<(string, string)>
    const roles: map<string, RoleRow>

    constructor (rows: map<string, Row>, grants: set<(string, string)>, roles: map<string, RoleRow>)
      ensures State() == Table(rows, roles, grants)
    {
      this.rows, this.grants, this.roles := rows, grants, roles;
    }

    function State(): Table
      reads this
    {
      Table(rows, roles, grants)
    }

    method Create(user: User, newId: string, up: bool) returns (result: Outcome<Row>)
      modifies this
      ensures up ==> (State(), result) == UserTable.CreateUser(old(State()), user, newId)
      ensures !up ==> State() == old(State()) && result == Down(RecordId(user, newId))
    {
      hide ParseUserId;
      var id := RecordId(user, newId);
      if id.None? {
        return Err(InvalidInput);
      }
      var roleNames := [];
      for i := 0 to |user.roles|
        invariant roleNames == NameList(user.roles[..i])
      {
        roleNames := roleNames + [user.roles[i].name];
      }
      assert user.roles[..|user.roles|] == user.roles;
      if !up {
        return Err(Internal);
      }
      var before := State();
      // The transaction: insert the row, then its roles; a missing role rolls back.
      if id.value in rows || Clashes(before, id.value, user.email, user.phone) {
        return Err(AlreadyExists);
      }
      var record := RowOf(user, id.value);
      rows := rows[id.value := record];
      var found := RoleIdsNamed(before, roleNames);
      if roleNames != [] && |found| != |roleNames| {
        rows := before.rows;
        return Err(NotFound);
      }
      grants := grants + set r | r in found :: (id.value, r);
      return Ok(record);
    }

    /** The granted, undeleted roles of a user, in whatever order the query yields them. */
    method PreloadRoles(id: string) returns (records: seq<Role>)
      ensures multiset(records) == multiset(GrantedRoles(State(), id))
    {
      var rest := GrantedRoles(State(), id);
      records := [];
      while rest != {}
        invariant multiset(records) + multiset(rest) == multiset(GrantedRoles(State(), id))
        decreases rest
      {
        var role :| role in rest;
        assert rest == (rest - {role}) + {role};
        records := records + [role];
        rest := rest - {role};
      }
    }

    method ToDomainUser(row: Row) returns (user: User)
      ensures Shows(State(), row, user)
    {
      var records := PreloadRoles(row.id);
      var copied := [];
      for i := 0 to |records|
        invariant copied == records[..i]
      {
        copied := copied + [records[i]];
      }
      assert copied == records;
      user := User(row.id, row.email, row.password, row.firstName, row.lastName, row.phone, StatusOf(row), copied);
    }

    method GetByID(id: string, up: bool) returns (result: Outcome<User>)
      ensures up ==> match FindById(State(), id)
                     case Ok(row) => result.Ok? && Shows(State(), row, result.value)
                     case Err(error) => result == Err(error)
      ensures !up ==> result == Down(ParseUserId(id))
    {
      hide ParseUserId;
      if ParseUserId(id).None? {
        return Err(InvalidInput);
      }
      if !up {
        return Err(Internal);
      }
      var found := FindById(State(), id);
      if found.Err? {
        return Err(found.error);
      }
      var user := ToDomainUser(found.value);
      return Ok(user);
    }

    method GetByEmail(email: string, up: bool) returns (result: Outcome<User>)
      requires TableOk(State())
      ensures up ==> match FindByEmail(State(), email)
                     case Ok(row) => result.Ok? && Shows(State(), row, result.value)
                     case Err(error) => result == Err(error)
      ensures !up ==> result.Err?
    {
      hide ParseUserId, NormalizeEmail;
      if !up {
        return Err(Internal);
      }
      if !exists id :: id in rows && !rows[id].deleted && rows[id].email == email {
        return Err(NotFound);
      }
      var id :| id in rows && !rows[id].deleted && rows[id].email == email;
      FindByEmailFinds(State(), id);
      var user := ToDomainUser(rows[id]);
      return Ok(user);
    }

    /** The users on one page and the number of all matching users; `xs` is the order in
        which the query yields the matching rows. */
    method List(request: Request, xs: seq<string>, up: bool) returns (result: Outcome<(seq<User>, nat)>)
      requires EachOnce(Matching(State(), request.status), xs)
      ensures up ==> match RepositoryList(xs, request)
                     case Ok((ids, total)) =>
                       && result.Ok? && ShowAll(ids, result.value.0) && OfStatus(result.value.0, request.status)
                       && total == |set id | id in rows && !rows[id].deleted && (
                                               || request.status == ""
                                               || (request.status == "active" && rows[id].isActive)
                                               || (request.status == "suspended" && !rows[id].isActive))|
                       && result.value.1 == total == |Matching(State(), request.status)|
                     case Err(error) => result == Err(error)
      ensures !up ==> result.Err? && result.error in {InvalidInput, Internal}
    {
      hide Skipped, GrantedRoles, EachOnce, Matching, Window;
      var page, perPage := request.page, request.perPage;
      if page <= 0 {
        page := 1;
      }
      if perPage <= 0 || perPage > 100 {
        perPage := 20;
      }
      if request.status !in {"", "active", "suspended"} {
        return Err(InvalidInput);
      }
      if !up {
        return Err(Internal);
      }
      var total := |xs|;
      var records := Window(xs, Skipped(page, perPage), perPage);
      MatchingIs(State(), request.status);
      WindowIsPresent(State(), request.status, xs, Skipped(page, perPage), perPage);
      var users := [];
      for i := 0 to |records|
        invariant ShowAll(records[..i], users) && OfStatus(users, request.status)
      {
        var user := ToDomainUser(rows[records[i]]);
        users := users + [user];
      }
      assert records[..|records|] == records;
      return Ok((users, total));
    }

    /** No user is deleted, and each has the status that was asked for, if any. */
    static predicate OfStatus(users: seq<User>, status: string) {
      forall i :: 0 <= i < |users| ==>
        && users[i].status != Deleted
        && (status == "active" ==> users[i].status == Active)
        && (status == "suspended" ==> users[i].status == Suspended)
    }

    /** The users are the rows with these ids, in this order. */
    ghost predicate ShowAll(ids: seq<string>, users: seq<User>)
      reads this
    {
      |users| == |ids| && forall i :: 0 <= i < |ids| ==> ids[i] in rows && Shows(State(), rows[ids[i]], users[i])
    }

    method Update(user: User, up: bool) returns (result: Outcome<Row>)
      modifies this
      ensures grants == old(grants) && (result.Err? ==> rows == old(rows))
      ensures result.Ok? ==>
                && Present(old(State()), result.value.id)
                   && !Clashes(old(State()), result.value.id, user.email, user.phone)
                && rows == old(rows)[result.value.id := result.value]
                && result.value == RowOf(user, result.value.id).(deleted := false)
      ensures up ==> (State(), result) == UserTable.UpdateUser(old(State()), user)
      ensures !up ==> State() == old(State()) && result == Down(RecordId(user, ""))
    {
      hide ParseUserId;
      var id := RecordId(user, "");
      if id.None? {
        return Err(InvalidInput);
      }
      if !up {
        return Err(Internal);
      }
      if !Present(State(), id.value) {
        return Err(NotFound);
      }
      if Clashes(State(), id.value, user.email, user.phone) {
        return Err(AlreadyExists);
      }
      rows := rows[id.value := RowOf(user, id.value).(deleted := false)];
      return Ok(rows[id.value]);
    }

    method Delete(id: string, up: bool) returns (result: Outcome<()>)
      modifies this
      ensures grants == old(grants) && (result.Err? ==> rows == old(rows))
      ensures result.Ok? ==> FindById(old(State()), id).Ok?
      ensures result.Ok? ==>
                var row := FindById(old(State()), id).value;
                && !row.deleted && row.id in rows && rows[row.id].deleted && !rows[row.id].isActive
                && (forall u :: u in old(rows) && u != row.id ==> u in rows && rows[u] == old(rows)[u])
      ensures up ==> (State(), result) == UserTable.DeleteUser(old(State()), id)
      ensures !up ==> State() == old(State()) && result == Down(ParseUserId(id))
    {
      hide ParseUserId;
      if ParseUserId(id).None? {
        return Err(InvalidInput);
      }
      if !up {
        return Err(Internal);
      }
      var found := FindById(State(), id);
      if found.Err? {
        return Err(found.error);
      }
      rows := rows[found.value.id := found.value.(deleted := true, isActive := false)];
      return Ok(());
    }

    /** One grant is added, or one is taken away. */
    static predicate Changes(
      before: set<(string, string)>, after: set<(string, string)>, user: string, r: string, added: bool)
    {
      if added then (user, r) !in before && after == before + {(user, r)}
      else (user, r) in before && after == before - {(user, r)}
    }

    predicate Offers(r: string, name: string) {
      r in roles && roles[r].name == name && !roles[r].deleted
    }

    method FindRole(name: string) returns (role: Option<string>)
      requires TableOk(State())
      ensures role.Some? ==> Offers(role.value, name)
      ensures role.None? ==> forall r :: !Offers(r, name)
      ensures role == RoleNamed(State(), name)
    {
      hide ParseUserId, NormalizeEmail;
      if !exists r :: r in roles && roles[r].name == name && !roles[r].deleted {
        return None;
      }
      var r :| r in roles && roles[r].name == name && !roles[r].deleted;
      RoleNamedFinds(State(), r);
      return Some(r);
    }

    method AssignRole(id: string, name: string, up: bool) returns (result: Outcome<()>)
      requires TableOk(State())
      modifies this
      ensures rows == old(rows) && (result.Err? ==> grants == old(grants))
      ensures result.Ok? ==> FindById(old(State()), id).Ok?
      ensures result.Ok? ==>
                var u := FindById(old(State()), id).value.id;
                exists r :: Offers(r, name) && Changes(old(grants), grants, u, r, true)
      ensures up ==> (State(), result) == UserTable.AssignRole(old(State()), id, name)
      ensures !up ==> State() == old(State()) && result == Down(ParseUserId(id))
    {
      hide ParseUserId, RoleNamed, TableOk;
      if ParseUserId(id).None? {
        return Err(InvalidInput);
      }
      if !up {
        return Err(Internal);
      }
      var found := FindById(State(), id);
      if found.Err? {
        return Err(found.error);
      }
      var role := FindRole(name);
      if role.None? {
        return Err(NotFound);
      }
      if (found.value.id, role.value) in grants {
        return Err(AlreadyExists);
      }
      grants := grants + {(found.value.id, role.value)};
      return Ok(());
    }

    method RevokeRole(id: string, name: string, up: bool) returns (result: Outcome<()>)
      requires TableOk(State())
      modifies this
      ensures rows == old(rows) && (result.Err? ==> grants == old(grants))
      ensures result.Ok? ==> FindById(old(State()), id).Ok?
      ensures result.Ok? ==>
                var u := FindById(old(State()), id).value.id;
                exists r :: Offers(r, name) && Changes(old(grants), grants, u, r, false)
      ensures up ==> (State(), result) == UserTable.RevokeRole(old(State()), id, name)
      ensures !up ==> State() == old(State()) && result == Down(ParseUserId(id))
    {
      hide ParseUserId, RoleNamed, TableOk;
      if ParseUserId(id).None? {
        return Err(InvalidInput);
      }
      if !up {
        return Err(Internal);
      }
      var found := FindById(State(), id);
      if found.Err? {
        return Err(found.error);
      }
      var role := FindRole(name);
      if role.None? {
        return Err(NotFound);
      }
      if (found.value.id, role.value) !in grants {
        return Err(NotFound);
      }
      grants := grants - {(found.value.id, role.value)};
      return Ok(());
    }
  }
}
