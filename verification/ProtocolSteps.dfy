/** Every effect of the protocol keeps the shared invariant, and what the other
    clients rely on. */
module ProtocolSteps {
  import opened Domain
  import opened Keyspace
  import opened Protocol
  import opened ProtocolInvariant

  /** The session key of `id` is as it was. */
  predicate Untouched(core: Core, after: Core, id: string) {
    && Version(after, id) == Version(core, id)
    && (id in after.store.sessions <==> id in core.store.sessions)
    && (id in core.store.sessions ==> after.store.sessions[id] == core.store.sessions[id])
  }

  /** How the shared state may change under the feet of every client but `c`. */
  ghost predicate Evolves(core: Core, after: Core, c: nat) {
    && core.now <= after.now
    && core.stamp <= after.stamp
    && core.signed <= after.signed
    && core.killed <= after.killed
    && (forall t :: t in after.signed && t !in core.signed ==> t.id !in core.origins)
    && (forall x :: x in core.origins ==>
        && x in after.origins
        && (after.origins[x] == core.origins[x] ||
            (core.origins[x].Pending? && core.origins[x].client == c && after.origins[x].Stored?)))
    && (forall id :: id in core.history ==> id in after.history && core.history[id] <= after.history[id])
    && (forall id :: id in after.history && id !in core.history ==>
          id in core.origins && core.origins[id] == SessionName(c))
    && (forall id :: Added(after, id) == Added(core, id) || Added(after, id) >= core.stamp)
    && core.sweeps <= after.sweeps
    && (forall id :: Untouched(core, after, id) || Changed(core, after, id))
  }

  /** The session key of `id` was written or deleted: WATCH notices, and every
      refresh id that was current before is spent. */
  ghost predicate Changed(core: Core, after: Core, id: string) {
    && Version(after, id) >= core.stamp
    && Added(after, id) >= Added(core, id)
    && (id in after.store.sessions ==> Added(after, id) >= core.stamp)
    && (forall r :: WasCurrent(core, id, r) ==> !Current(after, id, r))
  }

  lemma SweptStays(core: Core, after: Core, c: nat, id: string)
    requires Evolves(core, after, c)
    requires id in core.history && core.history[id] != []
    requires Added(after, id) == Added(core, id)
    requires Swept(core, id)
    ensures Swept(after, id)
  {
    var k :| 0 <= k < |core.sweeps| && Missed(core.sweeps[k], Owner(core, id), id, Added(core, id));
    assert after.sweeps[k] == core.sweeps[k] && Owner(after, id) == Owner(core, id);
  }

  lemma WasCurrentStays(core: Core, after: Core, c: nat, id: string, r: string)
    requires Evolves(core, after, c)
    requires WasCurrent(core, id, r)
    ensures WasCurrent(after, id, r)
    ensures GenerationOf(after, id, r) == GenerationOf(core, id, r)
    ensures !Current(core, id, r) ==> !Current(after, id, r)
  {
    assert core.history[id] <= after.history[id];
    assert Untouched(core, after, id) || Changed(core, after, id);
  }

  lemma PairStays(core: Core, after: Core, c: nat, d: nat, next: AuthSession, ttl: Lifetimes)
    requires Evolves(core, after, c) && c != d
    requires PairPending(core, d, next, ttl)
    ensures PairPending(after, d, next, ttl)
  {
  }

  lemma JobStays(core: Core, after: Core, c: nat, d: nat, job: Job, ttl: Lifetimes)
    requires Evolves(core, after, c) && c != d
    requires JobOk(core, d, job, ttl)
    ensures JobOk(after, d, job, ttl) && WasCurrent(core, job.sessionId, job.token.id)
    ensures !JobCurrent(core, job) ==> !JobCurrent(after, job)
  {
    WasCurrentStays(core, after, c, job.sessionId, job.token.id);
    PairStays(core, after, c, d, job.next, ttl);
  }

  lemma WatchStays(core: Core, after: Core, c: nat, job: Job, seen: nat)
    requires Evolves(core, after, c)
    requires WasCurrent(core, job.sessionId, job.token.id)
    requires WatchOk(core, job, seen)
    ensures WatchOk(after, job, seen)
    ensures Version(after, job.sessionId) == seen ==> Untouched(core, after, job.sessionId)
  {
    assert Untouched(core, after, job.sessionId) || Changed(core, after, job.sessionId);
  }

  lemma SnapshotStays(core: Core, after: Core, c: nat, u: string, ids: set<string>, listed: nat, ttl: Lifetimes)
    requires Evolves(core, after, c)
    requires CoreOk(core, ttl) && CoreOk(after, ttl)
    requires SnapshotOk(core, u, ids, listed)
    ensures SnapshotOk(after, u, ids, listed)
  {
    forall id | id in ids ensures id in after.history && Owner(after, id) == u {
      assert core.history[id] <= after.history[id];
    }
    forall id | id in after.store.sessions && Live(after.store.sessions[id], after.now)
                && Owner(after, id) == u && Added(after, id) <= listed
      ensures id in ids || Swept(after, id)
    {
      assert Untouched(core, after, id) || Changed(core, after, id);
      assert id in core.store.sessions && id in core.history;
      assert Added(after, id) == Added(core, id);
      if id !in ids {
        assert Owner(core, id) == Owner(after, id);
        SweptStays(core, after, c, id);
      }
    }
  }

  lemma OwnerStays(core: Core, after: Core, c: nat, id: string, ttl: Lifetimes)
    requires Evolves(core, after, c) && HistoryOk(core, ttl) && id in core.history
    ensures id in after.history && Owner(after, id) == Owner(core, id)
  {
    assert Lineage(id, core.history[id]) && core.history[id] <= after.history[id];
  }

  /** No step of one client takes from another what its program counter relies on. */
  lemma ClientStays(core: Core, after: Core, c: nat, d: nat, pc: Pc, ttl: Lifetimes)
    requires Evolves(core, after, c) && c != d
    requires CoreOk(core, ttl) && CoreOk(after, ttl)
    requires PcOk(core, d, pc, ttl)
    ensures PcOk(after, d, pc, ttl)
  {
    hide JobOk, PairPending, SnapshotOk, WatchOk, WasCurrent, Current, Changed;
    hide HistoryOk, OriginsOk, CellsOk, TouchedOk, SignedOk, MembersOk, CoverageOk;
    match pc
    case Creating(next) => PairStays(core, after, c, d, next, ttl);
    case Looking(token, session) => WasCurrentStays(core, after, c, session.id, token.id);
    case Watching(job, _) => JobStays(core, after, c, d, job, ttl);
    case Reading(job, _, seen) =>
      JobStays(core, after, c, d, job, ttl);
      WatchStays(core, after, c, job, seen);
    case Executing(job, _, seen) =>
      JobStays(core, after, c, d, job, ttl);
      WatchStays(core, after, c, job, seen);
    case DeleteReading(id) =>
    case DeleteExecuting(id, session) => OwnerStays(core, after, c, id, ttl);
    case Erasing(u, ids, listed) => SnapshotStays(core, after, c, u, ids, listed, ttl);
    case _ =>
  }

  lemma EndingStays(core: Core, after: Core, c: nat, ending: Ending)
    requires Evolves(core, after, c)
    requires Won(core, ending)
    ensures Won(after, ending)
  {
    if ending.result.Ok? {
      WasCurrentStays(core, after, c, ending.token.sessionId, ending.token.id);
      assert core.history[ending.token.sessionId] <= after.history[ending.token.sessionId];
    }
  }

  // ---- effects that only forget: ticks, expiry, listing, deletion ----

  /** Nothing new is stored; sessions and index sets only lose entries, and a
      session key that goes is touched. */
  ghost predicate Shrinks(core: Core, after: Core) {
    && after.history == core.history && after.origins == core.origins
    && after.lastAdd == core.lastAdd && after.signed == core.signed
    && core.now <= after.now && core.stamp <= after.stamp
    && (forall id :: id in after.store.sessions ==>
        && id in core.store.sessions
        && after.store.sessions[id] == core.store.sessions[id]
        && Version(after, id) == Version(core, id)
        && (id in after.killed ==> id in core.killed))
    && (forall id :: Untouched(core, after, id) || (Version(after, id) >= core.stamp && id !in after.store.sessions))
    && (forall id :: id in after.touched ==> after.touched[id] < after.stamp)
    && core.killed <= after.killed <= core.history.Keys
    && (forall u :: u in after.store.index ==>
        && u in core.store.index
        && after.store.index[u].value <= core.store.index[u].value
        && after.store.index[u].deadline == core.store.index[u].deadline)
    && core.sweeps <= after.sweeps
    && (forall k :: 0 <= k < |after.sweeps| ==> after.sweeps[k].listed < after.sweeps[k].erased < after.stamp)
    && (forall k :: |core.sweeps| <= k < |after.sweeps| ==> after.sweeps[k].userId !in after.store.index)
    && (forall id :: id in after.store.sessions && Live(after.store.sessions[id], after.now) && Covered(core, id) ==>
        Covered(after, id) || Swept(after, id))
  }

  lemma ShrinkEvolves(core: Core, after: Core, c: nat)
    requires Shrinks(core, after)
    ensures Evolves(core, after, c)
  {
    forall id ensures Untouched(core, after, id) || Changed(core, after, id) {
    }
  }

  lemma ShrinkMembers(core: Core, after: Core, ttl: Lifetimes)
    requires Shrinks(core, after) && MembersOk(core, ttl)
    ensures MembersOk(after, ttl)
  {
    forall u, id | u in after.store.index && id in after.store.index[u].value
      ensures id in after.history && Owner(after, id) == u
      ensures forall k :: 0 <= k < |after.sweeps| && after.sweeps[k].userId == u ==>
                after.sweeps[k].erased < Added(after, id)
    {
      assert id in core.store.index[u].value;
      forall k | 0 <= k < |after.sweeps| && after.sweeps[k].userId == u
        ensures after.sweeps[k].erased < Added(after, id)
      {
        assert k < |core.sweeps| && after.sweeps[k] == core.sweeps[k];
        assert core.sweeps[k].userId == u && Added(after, id) == Added(core, id);
      }
    }
  }

  lemma ShrinkCoverage(core: Core, after: Core, ttl: Lifetimes)
    requires Shrinks(core, after) && CellsOk(core, ttl) && CoverageOk(core)
    ensures CoverageOk(after)
  {
    forall id | id in after.store.sessions && Live(after.store.sessions[id], after.now)
      ensures Covered(after, id) || Swept(after, id)
    {
      if !Covered(core, id) {
        ShrinkEvolves(core, after, 0);
        SweptStays(core, after, 0, id);
      }
    }
  }

  lemma ShrinkKeeps(core: Core, after: Core, c: nat, ttl: Lifetimes)
    requires CoreOk(core, ttl) && Shrinks(core, after)
    ensures CoreOk(after, ttl)
    ensures Evolves(core, after, c)
  {
    hide Shrinks, Evolves, HistoryOk, OriginsOk, CellsOk, TouchedOk, SignedOk, MembersOk, CoverageOk;
    ShrinkEvolves(core, after, c);
    ShrinkMembers(core, after, ttl);
    ShrinkCoverage(core, after, ttl);
    ShrinkRecords(core, after, ttl);
    ShrinkCells(core, after, ttl);
  }

  lemma ShrinkRecords(core: Core, after: Core, ttl: Lifetimes)
    requires Shrinks(core, after) && HistoryOk(core, ttl) && OriginsOk(core) && SignedOk(core, ttl)
    ensures HistoryOk(after, ttl) && OriginsOk(after) && SignedOk(after, ttl)
  {
    hide Lineage, SignedWith, Untouched, Covered, Swept;
    assert forall x :: x in core.origins && core.origins[x].Stored? ==> HoldsId(core, core.origins[x], x);
  }

  lemma ShrinkCells(core: Core, after: Core, ttl: Lifetimes)
    requires Shrinks(core, after) && CellsOk(core, ttl) && TouchedOk(core)
    ensures CellsOk(after, ttl) && TouchedOk(after)
  {
    hide Untouched, Covered, Swept;
  }

  lemma TickShrinks(core: Core, d: nat, ttl: Lifetimes)
    requires TouchedOk(core) && MembersOk(core, ttl)
    ensures Shrinks(core, core.(now := core.now + d))
  {
  }

  lemma ListShrinks(core: Core, ttl: Lifetimes)
    requires TouchedOk(core) && MembersOk(core, ttl)
    ensures Shrinks(core, core.(stamp := core.stamp + 1))
  {
  }

  function WithoutIndex(core: Core, u: string): Core {
    core.(store := core.store.(index := core.store.index - {u}))
  }

  lemma ExpireIndexShrinks(core: Core, u: string, ttl: Lifetimes)
    requires TouchedOk(core) && MembersOk(core, ttl)
    requires u in core.store.index && !Live(core.store.index[u], core.now)
    ensures Shrinks(core, WithoutIndex(core, u))
  {
  }

  lemma ReapShrinks(core: Core, id: string, ttl: Lifetimes)
    requires TouchedOk(core) && MembersOk(core, ttl)
    ensures Shrinks(core, Reap(core, id))
  {
    hide Swept, Missed, Covered;
    ReapCovers(core, id);
  }

  lemma ReapCovers(core: Core, id: string)
    ensures forall i :: i in core.store.sessions && i != id ==> (Covered(core, i) <==> Covered(Reap(core, id), i))
  {
  }

  lemma KillShrinks(core: Core, id: string, session: AuthSession, ttl: Lifetimes)
    requires TouchedOk(core) && MembersOk(core, ttl)
    requires id in core.history && session.id == id
    ensures Shrinks(core, Kill(core, id, session))
  {
    hide Covered, Swept, Missed, Drop, Untouched, Kill;
    var after := Kill(core, id, session);
    KillEffect(core, id, session, ttl);
    KillCovers(core, id, session);
    forall i
      ensures Untouched(core, after, i) || (Version(after, i) >= core.stamp && i !in after.store.sessions)
      ensures i in after.store.sessions ==>
                i in core.store.sessions && after.store.sessions[i] == core.store.sessions[i]
                && Version(after, i) == Version(core, i) && (i in after.killed ==> i in core.killed)
    {
      KillUntouched(core, id, session, i);
    }
  }

  /** An EXEC of Delete touches one session key. */
  lemma KillUntouched(core: Core, id: string, session: AuthSession, i: string)
    ensures var after := Kill(core, id, session);
      && (Untouched(core, after, i) || (Version(after, i) >= core.stamp && i !in after.store.sessions))
      && (i in after.store.sessions ==>
          i in core.store.sessions && after.store.sessions[i] == core.store.sessions[i]
          && Version(after, i) == Version(core, i) && (i in after.killed ==> i in core.killed))
  {
    hide Drop;
    DropEffect(core.store, core.now, id, session);
  }

  lemma KillEffect(core: Core, id: string, session: AuthSession, ttl: Lifetimes)
    requires TouchedOk(core) && MembersOk(core, ttl) && id in core.history
    ensures var after := Kill(core, id, session);
      && after == core.(stamp := after.stamp, store := after.store, touched := after.touched, killed := after.killed)
      && after.stamp == core.stamp + 1 && after.killed == core.killed + {id} && after.killed <= core.history.Keys
      && (forall i :: i in after.touched ==> after.touched[i] < after.stamp)
      && (forall k :: 0 <= k < |after.sweeps| ==> after.sweeps[k].listed < after.sweeps[k].erased < after.stamp)
      && (forall u :: u in after.store.index ==>
          && u in core.store.index
          && after.store.index[u].value <= core.store.index[u].value
          && after.store.index[u].deadline == core.store.index[u].deadline)
  {
    hide Drop;
    DropEffect(core.store, core.now, id, session);
  }

  lemma KillCovers(core: Core, id: string, session: AuthSession)
    requires session.id == id
    ensures var after := Kill(core, id, session);
            forall i :: i in after.store.sessions && i in core.store.sessions && Covered(core, i) ==> Covered(after, i)
  {
    hide Drop;
    var after := Kill(core, id, session);
    DropEffect(core.store, core.now, id, session);
    forall i | i in after.store.sessions && i in core.store.sessions && Covered(core, i) ensures Covered(after, i) {
      assert i in core.store.index[core.store.sessions[i].value.userId].value - {id};
    }
  }

  /** A live session of the swept user that the snapshot missed is recorded as missed. */
  lemma SurvivorIsMissed(core: Core, u: string, ids: set<string>, listed: nat, id: string)
    requires SnapshotOk(core, u, ids, listed)
    requires id in core.store.sessions && Live(core.store.sessions[id], core.now)
    requires Owner(core, id) == u && id !in ids && Added(core, id) < core.stamp
    ensures Swept(KillAll(core, u, ids, listed), id)
  {
    var after := KillAll(core, u, ids, listed);
    assert Owner(after, id) == u;
    if Added(core, id) <= listed {
      var k :| 0 <= k < |core.sweeps| && Missed(core.sweeps[k], Owner(core, id), id, Added(core, id));
      assert after.sweeps[k] == core.sweeps[k];
    } else {
      assert Missed(after.sweeps[|core.sweeps|], u, id, Added(after, id));
    }
  }

  /** The DEL removes exactly the listed session keys and touches them. */
  lemma KillAllUntouched(core: Core, u: string, ids: set<string>, listed: nat, id: string)
    ensures var after := KillAll(core, u, ids, listed);
      && (Untouched(core, after, id) || (Version(after, id) >= core.stamp && id !in after.store.sessions))
      && (id in after.store.sessions ==> id !in ids && Untouched(core, after, id) && id in core.store.sessions)
  {
  }

  lemma KillAllCovers(core: Core, u: string, ids: set<string>, listed: nat, id: string)
    requires id in core.store.sessions && id !in ids && core.store.sessions[id].value.userId != u && Covered(core, id)
    ensures Covered(KillAll(core, u, ids, listed), id)
  {
  }

  lemma KillAllSweeps(core: Core, u: string, ids: set<string>, listed: nat, ttl: Lifetimes)
    requires TouchedOk(core) && MembersOk(core, ttl) && listed < core.stamp
    ensures var after := KillAll(core, u, ids, listed);
      && core.sweeps <= after.sweeps
      && (forall k :: 0 <= k < |after.sweeps| ==> after.sweeps[k].listed < after.sweeps[k].erased < after.stamp)
      && (forall k :: |core.sweeps| <= k < |after.sweeps| ==> after.sweeps[k].userId !in after.store.index)
      && (forall id :: id in after.touched ==> after.touched[id] < after.stamp)
  {
  }

  lemma KillAllShrinks(core: Core, u: string, ids: set<string>, listed: nat, ttl: Lifetimes)
    requires TouchedOk(core) && MembersOk(core, ttl)
    requires ids <= core.history.Keys && listed < core.stamp
    requires forall id ::
               id in core.store.sessions && id !in ids && Live(core.store.sessions[id], core.now)
               && core.store.sessions[id].value.userId == u
               ==>
               Swept(KillAll(core, u, ids, listed), id)
    ensures Shrinks(core, KillAll(core, u, ids, listed))
  {
    hide Covered, Swept, Missed, MembersOk, Untouched;
    var after := KillAll(core, u, ids, listed);
    KillAllSweeps(core, u, ids, listed, ttl);
    forall id
      ensures Untouched(core, after, id) || (Version(after, id) >= core.stamp && id !in after.store.sessions)
      ensures id in after.store.sessions ==>
                id in core.store.sessions && id !in ids && after.store.sessions[id] == core.store.sessions[id]
                && Version(after, id) == Version(core, id)
    {
      KillAllUntouched(core, u, ids, listed, id);
    }
    forall id | id in after.store.sessions && Live(after.store.sessions[id], after.now) && Covered(core, id)
      ensures Covered(after, id) || Swept(after, id)
    {
      if core.store.sessions[id].value.userId != u {
        KillAllCovers(core, u, ids, listed, id);
      }
    }
  }

  lemma KillAllKeeps(core: Core, u: string, ids: set<string>, listed: nat, c: nat, ttl: Lifetimes)
    requires CoreOk(core, ttl)
    requires SnapshotOk(core, u, ids, listed)
    ensures CoreOk(KillAll(core, u, ids, listed), ttl)
    ensures Evolves(core, KillAll(core, u, ids, listed), c)
  {
    forall id | id in core.store.sessions && id !in ids && Live(core.store.sessions[id], core.now)
                && core.store.sessions[id].value.userId == u
      ensures Swept(KillAll(core, u, ids, listed), id)
    {
      SurvivorIsMissed(core, u, ids, listed, id);
    }
    KillAllShrinks(core, u, ids, listed, ttl);
    ShrinkKeeps(core, KillAll(core, u, ids, listed), c, ttl);
  }

  lemma ListKeeps(core: Core, c: nat, ttl: Lifetimes)
    requires CoreOk(core, ttl)
    ensures CoreOk(core.(stamp := core.stamp + 1), ttl)
    ensures Evolves(core, core.(stamp := core.stamp + 1), c)
  {
    hide Shrinks, Evolves;
    ListShrinks(core, ttl);
    ShrinkKeeps(core, core.(stamp := core.stamp + 1), c, ttl);
  }

  lemma KillKeeps(core: Core, id: string, session: AuthSession, c: nat, ttl: Lifetimes)
    requires CoreOk(core, ttl)
    requires PcOk(core, c, DeleteExecuting(id, session), ttl)
    ensures CoreOk(Kill(core, id, session), ttl)
    ensures Evolves(core, Kill(core, id, session), c)
  {
    hide Shrinks, Evolves;
    KillShrinks(core, id, session, ttl);
    ShrinkKeeps(core, Kill(core, id, session), c, ttl);
  }
}
