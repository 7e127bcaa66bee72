/** The effects that add something: minting a pair and storing a session. */
module ProtocolWrites {
  import opened Domain
  import opened Keyspace
  import opened Tokens
  import opened Protocol
  import opened ProtocolInvariant
  import opened ProtocolSteps

  function Named(core: Core, id: string, c: nat): Core {
    core.(origins := core.origins[id := SessionName(c)])
  }

  lemma NameEvolves(core: Core, id: string, c: nat)
    requires id !in core.origins
    ensures Evolves(core, Named(core, id, c), c)
  {
    var after := Named(core, id, c);
    forall x ensures Untouched(core, after, x) {}
  }

  lemma NameKeeps(core: Core, id: string, c: nat, ttl: Lifetimes)
    requires CoreOk(core, ttl) && id !in core.origins
    ensures CoreOk(Named(core, id, c), ttl)
    ensures Evolves(core, Named(core, id, c), c)
  {
    hide Evolves, HistoryOk, OriginsOk, CellsOk, TouchedOk, SignedOk, MembersOk, CoverageOk;
    var after := Named(core, id, c);
    NameEvolves(core, id, c);
    NameRecords(core, id, c, ttl);
    NameSigned(core, id, c, ttl);
    StoreSame(core, after, ttl);
  }

  lemma NameRecords(core: Core, id: string, c: nat, ttl: Lifetimes)
    requires HistoryOk(core, ttl) && OriginsOk(core) && id !in core.origins
    ensures HistoryOk(Named(core, id, c), ttl) && OriginsOk(Named(core, id, c))
  {
    hide Lineage;
  }

  lemma NameSigned(core: Core, id: string, c: nat, ttl: Lifetimes)
    requires SignedOk(core, ttl) && id !in core.origins
    ensures SignedOk(Named(core, id, c), ttl)
  {
    hide SignedWith;
  }

  /** Only origins and signatures differ. */
  predicate SameStore(core: Core, after: Core) {
    after == core.(origins := after.origins, signed := after.signed)
  }

  lemma StoreSame(core: Core, after: Core, ttl: Lifetimes)
    requires CellsOk(core, ttl) && TouchedOk(core) && MembersOk(core, ttl) && CoverageOk(core)
    requires SameStore(core, after)
    ensures CellsOk(after, ttl) && TouchedOk(after) && MembersOk(after, ttl) && CoverageOk(after)
  {
    assert CellsOk(after, ttl) && TouchedOk(after) by {
      hide MembersOk, CoverageOk;
    }
    MembersSame(core, after, ttl);
    CoverageSame(core, after);
  }

  lemma MembersSame(core: Core, after: Core, ttl: Lifetimes)
    requires MembersOk(core, ttl) && SameStore(core, after)
    ensures MembersOk(after, ttl)
  {
    forall id ensures Owner(after, id) == Owner(core, id) && Added(after, id) == Added(core, id) {
    }
  }

  lemma CoverageSame(core: Core, after: Core)
    requires CoverageOk(core) && SameStore(core, after)
    ensures CoverageOk(after)
  {
    forall id | id in after.store.sessions && Live(after.store.sessions[id], after.now)
      ensures Covered(after, id) || Swept(after, id)
    {
      if !Covered(core, id) {
        var k :| 0 <= k < |core.sweeps| && Missed(core.sweeps[k], Owner(core, id), id, Added(core, id));
        assert Missed(after.sweeps[k], Owner(after, id), id, Added(after, id));
      }
    }
  }

  lemma MintSigned(core: Core, c: nat, next: AuthSession, ttl: Lifetimes)
    requires SignedOk(core, ttl)
    requires next.accessId !in core.origins && next.refreshId !in core.origins && next.accessId != next.refreshId
    requires next.expiresAt == core.now + ttl.refresh
    ensures SignedOk(Mint(core, c, next, ttl), ttl)
    ensures forall t :: t in Mint(core, c, next, ttl).signed && (t.id == next.accessId || t.id == next.refreshId) ==>
              SignedWith(t, next, ttl)
  {
  }

  lemma MintEvolves(core: Core, c: nat, next: AuthSession, ttl: Lifetimes)
    requires next.accessId !in core.origins && next.refreshId !in core.origins
    ensures Evolves(core, Mint(core, c, next, ttl), c)
  {
    var after := Mint(core, c, next, ttl);
    forall x ensures Untouched(core, after, x) {}
  }

  lemma MintRest(core: Core, c: nat, next: AuthSession, ttl: Lifetimes)
    requires HistoryOk(core, ttl) && OriginsOk(core)
    requires next.accessId !in core.origins && next.refreshId !in core.origins
    ensures HistoryOk(Mint(core, c, next, ttl), ttl) && OriginsOk(Mint(core, c, next, ttl))
  {
  }

  lemma MintKeeps(core: Core, c: nat, next: AuthSession, ttl: Lifetimes)
    requires CoreOk(core, ttl)
    requires next.accessId !in core.origins && next.refreshId !in core.origins && next.accessId != next.refreshId
    requires next.expiresAt == core.now + ttl.refresh && next.createdAt != ZERO_TIME
    ensures CoreOk(Mint(core, c, next, ttl), ttl)
    ensures Evolves(core, Mint(core, c, next, ttl), c)
    ensures PairPending(Mint(core, c, next, ttl), c, next, ttl)
  {
    MintEvolves(core, c, next, ttl);
    MintSigned(core, c, next, ttl);
    MintRest(core, c, next, ttl);
    StoreSame(core, Mint(core, c, next, ttl), ttl);
  }

  // ---- storing a session ----

  /** `next` may become the next generation of its session: it is the first one, or
      it continues the lineage. */
  predicate Continues(core: Core, c: nat, next: AuthSession) {
    && (next.id !in core.history ==> next.id in core.origins && core.origins[next.id] == SessionName(c))
    && (next.id in core.history ==>
        && core.history[next.id] != []
        && next.userId == Owner(core, next.id)
        && next.createdAt == core.history[next.id][0].createdAt
        && next.expiresAt >= Last(core.history[next.id]).expiresAt)
    && next.id !in core.killed
  }

  lemma LineageGrows(generations: seq<AuthSession>, next: AuthSession)
    requires generations != [] ==>
      && Lineage(next.id, generations)
      && next.userId == generations[0].userId
      && next.createdAt == generations[0].createdAt
      && next.expiresAt >= Last(generations).expiresAt
    requires next.createdAt != ZERO_TIME
    ensures Lineage(next.id, generations + [next])
  {
  }

  lemma PublishHistory(core: Core, c: nat, next: AuthSession, ttl: Lifetimes)
    requires HistoryOk(core, ttl) && Continues(core, c, next)
    requires PairPending(core, c, next, ttl)
    ensures HistoryOk(Publish(core, next, ttl.refresh), ttl)
  {
    var after := Publish(core, next, ttl.refresh);
    LineageGrows(Generations(core, next.id), next);
    forall id | id in after.history && id != next.id ensures after.history[id] == core.history[id] {}
    assert next.id in after.origins && after.origins[next.id].SessionName?;
  }

  lemma PublishOrigins(core: Core, c: nat, next: AuthSession, ttl: Lifetimes)
    requires OriginsOk(core) && PairPending(core, c, next, ttl)
    ensures OriginsOk(Publish(core, next, ttl.refresh))
  {
    var after := Publish(core, next, ttl.refresh);
    forall id, g, kind | id in after.history && 0 <= g < |after.history[id]|
      ensures TokenId(after.history[id][g], kind) in after.origins
      ensures after.origins[TokenId(after.history[id][g], kind)] == Stored(id, g, kind)
    {
      if id == next.id && g == |after.history[id]| - 1 {
        assert after.history[id][g] == next;
      } else {
        assert after.history[id][g] == core.history[id][g];
      }
    }
    forall x | x in after.origins && after.origins[x].Stored? ensures HoldsId(after, after.origins[x], x) {
      if x != next.accessId && x != next.refreshId {
        assert HoldsId(core, core.origins[x], x);
      }
    }
  }

  lemma PublishSigned(core: Core, c: nat, next: AuthSession, ttl: Lifetimes)
    requires SignedOk(core, ttl) && PairPending(core, c, next, ttl)
    ensures SignedOk(Publish(core, next, ttl.refresh), ttl)
  {
    var after := Publish(core, next, ttl.refresh);
    forall t | t in after.signed
      ensures t.id in after.origins && !after.origins[t.id].SessionName? && after.origins[t.id].kind == t.kind
      ensures after.origins[t.id].Stored? ==>
          var o := after.origins[t.id];
          && o.sessionId in after.history && o.generation < |after.history[o.sessionId]|
          && SignedWith(t, after.history[o.sessionId][o.generation], ttl)
    {
      if t.id == next.accessId || t.id == next.refreshId {
        assert SignedWith(t, next, ttl);
      }
    }
  }

  /** A member of an index set after the EXEC was a member before, or is the session just added. */
  lemma PublishListed(core: Core, next: AuthSession, ttl: int, u: string, id: string)
    requires var index := Publish(core, next, ttl).store.index; u in index && id in index[u].value
    ensures (u == next.userId && id == next.id) || (u in core.store.index && id in core.store.index[u].value)
  {
  }

  /** The stored session belongs to the user it names; all others keep owner and stamp. */
  lemma PublishOwner(core: Core, c: nat, next: AuthSession, ttl: int)
    requires Continues(core, c, next)
    ensures var after := Publish(core, next, ttl);
      && Owner(after, next.id) == next.userId && Added(after, next.id) == core.stamp
      && (next.id in core.history ==> Owner(core, next.id) == next.userId)
      && (forall id :: id in core.history ==> Owner(after, id) == Owner(core, id))
      && (forall id :: id != next.id ==> Added(after, id) == Added(core, id))
  {
    hide Put;
  }

  lemma PublishMembers(core: Core, c: nat, next: AuthSession, ttl: Lifetimes)
    requires MembersOk(core, ttl) && Continues(core, c, next) && 0 < ttl.refresh
    ensures MembersOk(Publish(core, next, ttl.refresh), ttl)
  {
    var after := Publish(core, next, ttl.refresh);
    PublishOwner(core, c, next, ttl.refresh);
    forall u, id | u in after.store.index && id in after.store.index[u].value
      ensures id in after.history && Owner(after, id) == u
      ensures forall k :: 0 <= k < |after.sweeps| && after.sweeps[k].userId == u ==>
                after.sweeps[k].erased < Added(after, id)
    {
      PublishListed(core, next, ttl.refresh, u, id);
      hide Put, Owner, Continues;
    }
  }

  lemma PublishCoverage(core: Core, c: nat, next: AuthSession, ttl: Lifetimes)
    requires CellsOk(core, ttl) && CoverageOk(core) && Continues(core, c, next) && 0 < ttl.refresh
    ensures CoverageOk(Publish(core, next, ttl.refresh))
  {
    var after := Publish(core, next, ttl.refresh);
    forall id | id in after.store.sessions && Live(after.store.sessions[id], after.now)
      ensures Covered(after, id) || Swept(after, id)
    {
      if id != next.id && !Covered(core, id) {
        var k :| 0 <= k < |core.sweeps| && Missed(core.sweeps[k], Owner(core, id), id, Added(core, id));
        assert Missed(after.sweeps[k], Owner(after, id), id, Added(after, id));
      }
    }
  }

  lemma PublishEvolves(core: Core, c: nat, next: AuthSession, ttl: Lifetimes)
    requires PairPending(core, c, next, ttl) && Continues(core, c, next)
    requires Added(core, next.id) < core.stamp
    ensures Evolves(core, Publish(core, next, ttl.refresh), c)
  {
    var after := Publish(core, next, ttl.refresh);
    forall id ensures Untouched(core, after, id) || Changed(core, after, id) {
      if id == next.id {
        assert Changed(core, after, id);
      } else {
        assert Untouched(core, after, id);
      }
    }
  }

  lemma PublishCells(core: Core, c: nat, next: AuthSession, ttl: Lifetimes)
    requires CellsOk(core, ttl) && TouchedOk(core) && Continues(core, c, next)
    requires next.expiresAt <= core.now + ttl.refresh
    ensures CellsOk(Publish(core, next, ttl.refresh), ttl) && TouchedOk(Publish(core, next, ttl.refresh))
  {
  }

  lemma PublishKeeps(core: Core, c: nat, next: AuthSession, ttl: Lifetimes)
    requires CoreOk(core, ttl) && PairPending(core, c, next, ttl) && Continues(core, c, next)
    ensures CoreOk(Publish(core, next, ttl.refresh), ttl)
    ensures Evolves(core, Publish(core, next, ttl.refresh), c)
  {
    PublishHistory(core, c, next, ttl);
    PublishOrigins(core, c, next, ttl);
    PublishSigned(core, c, next, ttl);
    PublishMembers(core, c, next, ttl);
    PublishCoverage(core, c, next, ttl);
    PublishEvolves(core, c, next, ttl);
    PublishCells(core, c, next, ttl);
  }
}
