/** An example world: one active user, one role, and the user's login. */
module SampleWorlds {
  import opened Domain
  import opened Keyspace
  import opened Text
  import opened Tokens
  import opened Samples
  import opened UserTable
  import opened Service

  const DRAW := Draw("s", "x", "y", 0)

  /** A table with one active user and one role. */
  function OneUser(id: string, role: string, granted: bool): World {
    var row := Row(id, "a", PasswordHash("p"), "", "", "", true, false);
    World(1, Table(map[id := row], map["r" := RoleRow("r", role, false)], if granted then {(id, "r")} else {}),
          Store(map[], map[]), {}, {})
  }

  const LOGIN := Call.Authenticate("a", "p", DRAW)

  lemma PlainAddress()
    ensures NormalizeEmail("a") == "a"
  {
    assert TrimLeft("a") == "a";
    assert TrimRight("a") == "a";
    assert ToLower("a") == "a";
  }

  lemma OneUserIsInitial(id: string, role: string, granted: bool)
    requires ParseUserId(id) == Some(id)
    ensures Initial(OneUser(id, role, granted))
    ensures FindByEmail(OneUser(id, role, granted).table, "a") == Ok(OneUser(id, role, granted).table.rows[id])
  {
    hide ParseUserId, NormalizeEmail;
    PlainAddress();
    var w := OneUser(id, role, granted);
    assert TableOk(w.table);
    assert Present(w.table, id);
    FindByEmailFinds(w.table, id);
  }

  function OneSession(id: string, roles: seq<string>): AuthSession {
    AuthSession("s", id, "a", roles, "x", "y", 1, 1 + TTL.refresh)
  }

  /** The login stores the one session and issues its access token. */
  lemma LoginStores(id: string, role: string, granted: bool) returns (session: AuthSession)
    requires ParseUserId(id) == Some(id) && id != ""
    ensures var w := OneUser(id, role, granted);
      && session == OneSession(id, RoleNamesOf(w.table, id))
      && Possible(w, LOGIN)
      && var after := Apply(w, LOGIN, Healthy, TTL).0;
         after.now == 1 && after.table == w.table
         && after.store == Put(w.store, 1, session, TTL.refresh)
         && MintToken(session, Access, 1, TTL) in after.signed
  {
    hide ParseUserId, NormalizeEmail, RoleNamesOf;
    PlainAddress();
    OneUserIsInitial(id, role, granted);
    session := OneSession(id, RoleNamesOf(OneUser(id, role, granted).table, id));
  }
}
