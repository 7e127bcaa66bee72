/** Where the agreement of cache and tables ends. The session store is given the
    caller's spelling of a user id, the tables its parsed form; a role change or a
    deletion that uses another accepted spelling leaves the user's tokens alive. */
module StaleTokens {
  import opened Domain
  import opened Keyspace
  import opened Text
  import opened Tokens
  import opened Roles
  import opened UserTable
  import opened Service
  import opened Agreement
  import opened Samples
  import opened SampleWorlds
  import SessionStore

  predicate ChangesUser(call: Call) {
    call.DeleteUser? || ((call.AssignRole? || call.RevokeRole?) && ToLower(TrimSpace(call.role)) != "")
  }

  /** After any canonical run, this call leaves no token that describes its user wrongly. */
  ghost predicate NeverStale(call: Call) {
    forall w: World, steps: seq<Step>, outage: Outage, ttl: Lifetimes ::
      Initial(w) && ttl.Valid() && CanRun(w, steps, ttl) && (forall i :: 0 <= i < |steps| ==> Canonical(steps[i].0))
      ==> TokensAgree(Apply(After(w, steps, ttl), call, outage, ttl).0)
  }

  lemma AccessTokenParses(session: AuthSession)
    requires session.id != "" && session.userId != "" && session.email != "" && session.accessId != ""
    ensures Parses(MintToken(session, Access, 1, TTL), 1)
  {
  }

  /** Revoking the sessions of another spelling of the id revokes nothing. */
  lemma WipeMisses(session: AuthSession, other: string)
    requires other != session.userId && other != ""
    ensures var store := Put(Store(map[], map[]), 1, session, TTL.refresh);
      SessionStore.DeleteAllForUser(store, 1, other) == (store, Ok(()))
  {
    var store := Put(Store(map[], map[]), 1, session, TTL.refresh);
    assert store.sessions - {} == store.sessions;
    assert store.index - {other} == store.index;
  }

  lemma OneRoleName(roles: set<Role>, role: Role)
    requires roles == {role} && role.name != ""
    ensures RoleNames(Arrange(roles)) == [role.name]
  {
    var xs := Arrange(roles);
    assert |multiset(xs)| == 1;
    assert |xs| == 1 && xs[0] in multiset(xs);
    assert xs == [role];
    assert xs[..0] == [];
    assert NonEmptyNames(xs) == [role.name];
    assert [role.name][1..] == [] && SortStrings([]) == [];
    assert Insert(role.name, []) == [role.name];
  }

  lemma NoRoleName(roles: set<Role>)
    requires roles == {}
    ensures RoleNames(Arrange(roles)) == []
  {
    assert |multiset(Arrange(roles))| == 0;
  }

  lemma NamesWithGrant(table: Table, id: string, role: string)
    requires table.roles == map["r" := RoleRow("r", role, false)] && role != ""
    ensures (id, "r") in table.grants ==> RoleNamesOf(table, id) == [role]
    ensures (id, "r") !in table.grants ==> RoleNamesOf(table, id) == []
  {
    if (id, "r") in table.grants {
      assert GrantedRoles(table, id) == {Role("r", role)};
      OneRoleName(GrantedRoles(table, id), Role("r", role));
    } else {
      assert GrantedRoles(table, id) == {};
      NoRoleName(GrantedRoles(table, id));
    }
  }

  function RoleOf(call: Call): string {
    if call.DeleteUser? then "r" else if call.AssignRole? || call.RevokeRole? then ToLower(TrimSpace(call.role)) else ""
  }

  /** The change itself does reach the user, through the parsed id. */
  lemma ChangeReaches(call: Call, id: string, c: string)
    requires ChangesUser(call) && TrimSpace(call.id) == id && ParseUserId(id) == Some(c)
    requires ParseUserId(c) == Some(c)
    ensures var table := OneUser(c, RoleOf(call), call.RevokeRole?).table;
      var after := if call.DeleteUser? then UserTable.DeleteUser(table, id).0
                   else if call.AssignRole? then UserTable.AssignRole(table, id, RoleOf(call)).0
                   else UserTable.RevokeRole(table, id, RoleOf(call)).0;
      forall roles | roles == RoleNamesOf(table, c) :: !Describes(after, c, "a", roles)
  {
    hide ParseUserId, TrimSpace, RoleNamesOf;
    var table := OneUser(c, RoleOf(call), call.RevokeRole?).table;
    OneUserIsInitial(c, RoleOf(call), call.RevokeRole?);
    RoleNamedFinds(table, "r");
    NamesWithGrant(table, c, RoleOf(call));
    if call.AssignRole? {
      NamesWithGrant(UserTable.AssignRole(table, id, RoleOf(call)).0, c, RoleOf(call));
    } else if call.RevokeRole? {
      NamesWithGrant(UserTable.RevokeRole(table, id, RoleOf(call)).0, c, RoleOf(call));
    }
  }

  /** A token of the one session is accepted as long as the store holds it. */
  lemma TokenAccepted(w: World, session: AuthSession)
    requires w.now == 1 && w.store == Put(Store(map[], map[]), 1, session, TTL.refresh)
    requires session.id != "" && session.userId != "" && session.email != "" && session.accessId != ""
    requires session.expiresAt == 1 + TTL.refresh
    requires MintToken(session, Access, 1, TTL) in w.signed
    ensures Validate(w, MintToken(session, Access, 1, TTL), None).1.Ok?
  {
    AccessTokenParses(session);
  }

  /** With a spelling other than the stored one, the login's token survives the change. */
  lemma OtherSpellingFails(call: Call)
    requires ChangesUser(call) && !Canonical(call)
    ensures !NeverStale(call)
  {
    hide TrimSpace, ParseUserId, Put, RoleNamesOf, Initial, Describes, Parses, SessionStore.DeleteAllForUser;
    var id := TrimSpace(call.id);
    var c := ParseUserId(id).value;
    ParsedIdIsCanonical(id);
    var w := OneUser(c, RoleOf(call), call.RevokeRole?);
    OneUserIsInitial(c, RoleOf(call), call.RevokeRole?);
    var steps: seq<Step> := [(LOGIN, Healthy)];
    var session := LoginStores(c, RoleOf(call), call.RevokeRole?);
    var in1 := Apply(w, LOGIN, Healthy, TTL).0;
    LoginRuns(w);
    ChangeReaches(call, id, c);
    NotEmpty(id);
    WipeMisses(session, id);
    var final := Apply(in1, call, Healthy, TTL).0;
    ChangeApplies(in1, call, id, session);
    assert final.store == in1.store && final.signed == in1.signed && final.now == 1;
    TokenAccepted(final, session);
    var token := MintToken(session, Access, 1, TTL);
    assert !Describes(final.table, token.subject, token.email, token.roles);
    assert !TokensAgree(final);
  }

  lemma NotEmpty(id: string)
    requires ParseUserId(id).Some?
    ensures id != ""
  {
  }

  lemma LoginRuns(w: World)
    requires Possible(w, LOGIN)
    ensures CanRun(w, [(LOGIN, Healthy)], TTL)
    ensures After(w, [(LOGIN, Healthy)], TTL) == Apply(w, LOGIN, Healthy, TTL).0
    ensures Canonical(LOGIN)
  {
    hide Apply, Possible;
    var steps: seq<Step> := [(LOGIN, Healthy)];
    assert steps[1..] == [];
    var next := Apply(w, LOGIN, Healthy, TTL).0;
    assert CanRun(next, [], TTL) && After(next, [], TTL) == next;
  }

  lemma ChangeApplies(w: World, call: Call, id: string, session: AuthSession)
    requires ChangesUser(call) && id == TrimSpace(call.id) != ""
    requires SessionStore.DeleteAllForUser(w.store, w.now, id) == (w.store, Ok(()))
    ensures var final := Apply(w, call, Healthy, TTL).0;
      final == w.(table :=
        if call.DeleteUser? then UserTable.DeleteUser(w.table, id).0
        else if call.AssignRole? then UserTable.AssignRole(w.table, id, RoleOf(call)).0
        else UserTable.RevokeRole(w.table, id, RoleOf(call)).0)
  {
    hide SessionStore.DeleteAllForUser, UserTable.DeleteUser, UserTable.AssignRole, UserTable.RevokeRole,
      TrimSpace, ToLower;
  }

  /** The exact condition: a deletion or role change keeps cache and tables in
      agreement, whatever ran before it, if and only if it spells the user's id as it
      is stored, or in no accepted way at all. */
  lemma NeverStaleIffCanonical(call: Call)
    requires ChangesUser(call)
    ensures NeverStale(call) <==> Canonical(call)
  {
    hide Apply, Initial, CanRun, Agreeing, TokensAgree, After;
    if Canonical(call) {
      forall w: World, steps: seq<Step>, outage: Outage, ttl: Lifetimes |
        Initial(w) && ttl.Valid() && CanRun(w, steps, ttl) && (forall i :: 0 <= i < |steps| ==> Canonical(steps[i].0))
        ensures TokensAgree(Apply(After(w, steps, ttl), call, outage, ttl).0)
      {
        InitialAgrees(w, ttl);
        RunKeeps(w, steps, ttl);
        assert Possible(After(w, steps, ttl), call);
        ApplyKeeps(After(w, steps, ttl), call, outage, ttl);
        AgreeingTokens(Apply(After(w, steps, ttl), call, outage, ttl).0, ttl);
      }
    } else {
      OtherSpellingFails(call);
    }
  }

  /** For one: granting "admin" to a user whose id is written with a capital letter. */
  lemma ShoutedIdLeavesStaleTokens()
    ensures !NeverStale(Call.AssignRole(SHOUTED, "admin"))
  {
    hide UuidLayout, NeverStale, TrimSpace, TrimLeft, TrimRight;
    ShoutedParses();
    var id: string :| id == SHOUTED;
    TrimmedStays(id);
    CapitalIsNotCanonical(id);
    TrimmedStays("admin");
    assert |ToLower("admin")| == 5;
    OtherSpellingFails(Call.AssignRole(id, "admin"));
  }
}
