/** Of any number of concurrent refreshes with one current token, exactly one
    returns a pair, as long as nothing deletes or expires the session and Redis
    and the user lookup answer. */
module ProtocolWinner {
  import opened Domain
  import opened Keyspace
  import opened Tokens
  import opened Protocol
  import opened ProtocolInvariant
  import opened ProtocolRuns
  import opened ProtocolTheorems

  predicate HasJob(pc: Pc) {
    pc.Watching? || pc.Reading? || pc.Executing?
  }

  /** The client is inside a RefreshToken call with this token. */
  predicate Working(pc: Pc, t: Claims) {
    || pc == Fetching(Renew, t)
    || (pc.Looking? && pc.token == t)
    || (HasJob(pc) && pc.job.token == t)
  }

  predicate Alive(core: Core, id: string) {
    var found := Find(core.store, core.now, id);
    found.Some? && core.now <= found.value.expiresAt
  }

  /** The step is undisturbed for refreshes with `t`: no failing command or lookup,
      and the token's user is found active. */
  predicate Undisturbed(s: State, a: Action, t: Claims) {
    && (a.Fault? ==> !Working(PcOf(s, a.client), t))
    && (a.Lookup? && Working(PcOf(s, a.client), t) ==>
        a.found.Ok? && a.found.value.status == Active && a.found.value.id == t.subject)
  }

  predicate CalmRun(s: State, run: seq<Action>, t: Claims, ttl: Lifetimes)
    decreases |run|
  {
    && Alive(s.core, t.sessionId)
    && (run != [] ==> Undisturbed(s, run[0], t) && CalmRun(Next(s, run[0], ttl), run[1..], t, ttl))
  }

  predicate Usable(t: Claims) {
    t.kind == Refresh && t.subject != "" && t.id != "" && t.email != "" && t.sessionId != ""
  }

  /** Nobody has spent the token, and nobody has been turned away with it. */
  predicate Unspent(s: State, t: Claims, base: nat) {
    && Current(s.core, t.sessionId, t.id)
    && (forall k :: base <= k < |s.ended| ==> s.ended[k].token != t)
    && OwnJobs(s, t)
  }

  predicate IsWin(e: Ending, t: Claims) {
    e.token == t && e.result.Ok?
  }

  ghost predicate Spent(s: State, t: Claims, base: nat) {
    exists k :: base <= k < |s.ended| && IsWin(s.ended[k], t)
  }

  /** Every refresh that lost was told ErrInvalidToken. */
  predicate FairLosses(s: State, t: Claims, base: nat) {
    forall k :: base <= k < |s.ended| && s.ended[k].token == t ==>
      s.ended[k].result.Ok? || s.ended[k].result == Err(InvalidToken)
  }

  lemma CurrentFits(core: Core, t: Claims, ttl: Lifetimes)
    requires CoreOk(core, ttl) && t in core.signed && Usable(t)
    requires Current(core, t.sessionId, t.id)
    ensures var session := core.store.sessions[t.sessionId].value;
      && Fits(t, session) && SignedWith(t, session, ttl)
      && session.expiresAt <= core.now + ttl.refresh
  {
    var id := t.sessionId;
    var g := |core.history[id]| - 1;
    assert TokenId(core.history[id][g], Refresh) == t.id;
  }

  /** A current refresh token parses for as long as its session is unexpired: the
      leeway and the truncation to seconds cannot cut it short. */
  lemma CurrentParses(core: Core, t: Claims, ttl: Lifetimes)
    requires CoreOk(core, ttl) && t in core.signed && Usable(t)
    requires Current(core, t.sessionId, t.id) && Alive(core, t.sessionId)
    ensures Parses(t, core.now)
  {
    hide CoreOk;
    CurrentFits(core, t, ttl);
  }

  /** The cell of a session changes hands only through an EXEC that consumes its
      current refresh id. */
  lemma StillCurrent(s: State, a: Action, t: Claims, ttl: Lifetimes)
    requires Inv(s, ttl) && Enabled(s, a) && Inv(Next(s, a, ttl), ttl)
    requires t in s.core.signed && Usable(t)
    requires Current(s.core, t.sessionId, t.id)
    requires Alive(Next(s, a, ttl).core, t.sessionId)
    ensures Current(Next(s, a, ttl).core, t.sessionId, t.id)
            || (a.Command? && PcOf(s, a.client).Executing? && PcOf(s, a.client).job.token == t
                && !ExecFails(s.core, t.sessionId, PcOf(s, a.client).seen, a.expiryAborts))
  {
    hide CoreOk, ClientsOk, EndingsOk;
    if a.Command? {
      PcHolds(s, a.client, ttl);
      CommandStillCurrent(s, a.client, PcOf(s, a.client), a.expiryAborts, t, ttl);
    }
  }

  lemma SameToken(core: Core, t: Claims, u: Claims, ttl: Lifetimes)
    requires CoreOk(core, ttl) && t in core.signed && u in core.signed && t.id == u.id
    ensures t == u
  {
  }

  lemma CreatedIsNew(core: Core, c: nat, next: AuthSession, id: string, ttl: Lifetimes)
    requires CoreOk(core, ttl) && PcOk(core, c, Creating(next), ttl) && id in core.store.sessions
    ensures next.id != id
  {
  }

  lemma CommandStillCurrent(s: State, c: nat, pc: Pc, expiryAborts: bool, t: Claims, ttl: Lifetimes)
    requires CoreOk(s.core, ttl) && PcOk(s.core, c, pc, ttl)
    requires t in s.core.signed && Usable(t)
    requires Current(s.core, t.sessionId, t.id)
    requires Alive(CommandStep(s, c, pc, expiryAborts, ttl).core, t.sessionId)
    ensures Current(CommandStep(s, c, pc, expiryAborts, ttl).core, t.sessionId, t.id)
            || (pc.Executing? && pc.job.token == t && !ExecFails(s.core, t.sessionId, pc.seen, expiryAborts))
  {
    hide CoreOk;
    match pc
    case Creating(next) => CreatedIsNew(s.core, c, next, t.sessionId, ttl);
    case DeleteExecuting(id, session) => DropEffect(s.core.store, s.core.now, id, session);
    case Executing(job, _, _) =>
      if job.token.id == t.id {
        SameToken(s.core, job.token, t, ttl);
      }
    case _ =>
  }

  /** While the token is unspent, no step turns a refresh with it away. */
  lemma UnspentStep(s: State, a: Action, t: Claims, base: nat, ttl: Lifetimes)
    requires Inv(s, ttl) && Enabled(s, a) && Inv(Next(s, a, ttl), ttl)
    requires t in s.core.signed && Usable(t) && base <= |s.ended|
    requires Unspent(s, t, base) && Alive(s.core, t.sessionId)
    requires Undisturbed(s, a, t) && Alive(Next(s, a, ttl).core, t.sessionId)
    ensures Unspent(Next(s, a, ttl), t, base) || Spent(Next(s, a, ttl), t, base)
    ensures FairLosses(s, t, base) ==> FairLosses(Next(s, a, ttl), t, base)
  {
    hide Inv, CoreOk, ClientsOk, EndingsOk, Parses, Fits;
    var after := Next(s, a, ttl);
    StillCurrent(s, a, t, ttl) by { assert Inv(s, ttl); }
    UnspentMoves(s, a, t, base, ttl);
    if !Unspent(after, t, base) {
      assert IsWin(after.ended[|s.ended|], t);
    }
  }

  /** At most one call ended, not with a refusal of `t`, and the jobs with `t` are its user's. */
  ghost predicate GoesOn(s: State, after: State, t: Claims) {
    && (|| after.ended == s.ended
        || (&& |after.ended| == |s.ended| + 1 && s.ended == after.ended[..|s.ended|]
            && (after.ended[|s.ended|].token == t ==> after.ended[|s.ended|].result.Ok?)))
    && OwnJobs(after, t)
  }

  predicate OwnJobs(s: State, t: Claims) {
    forall c :: c in s.clients && HasJob(s.clients[c]) && s.clients[c].job.token == t ==>
      s.clients[c].job.next.userId == t.subject
  }

  /** The client that moves with the token either goes on or wins. */
  lemma UnspentMoves(s: State, a: Action, t: Claims, base: nat, ttl: Lifetimes)
    requires Inv(s, ttl) && Enabled(s, a)
    requires t in s.core.signed && Usable(t)
    requires Unspent(s, t, base) && Alive(s.core, t.sessionId)
    requires Undisturbed(s, a, t)
    ensures GoesOn(s, Next(s, a, ttl), t)
    ensures a.Command? && PcOf(s, a.client).Executing? && PcOf(s, a.client).job.token == t ==>
              |Next(s, a, ttl).ended| == |s.ended| + 1 && IsWin(Next(s, a, ttl).ended[|s.ended|], t)
  {
    hide CoreOk, ClientsOk, EndingsOk, Parses, Fits;
    assert OwnJobs(s, t);
    match a
    case Present(c, goal, token) => CurrentParses(s.core, t, ttl);
    case Lookup(c, found, roles, accessId, refreshId) =>
      PcHolds(s, c, ttl);
      UnspentLookup(s, a, t, ttl);
    case Command(c, expiryAborts) =>
      PcHolds(s, c, ttl);
      UnspentCommand(s, c, PcOf(s, c), expiryAborts, t, ttl);
    case _ =>
  }

  lemma UnspentLookup(s: State, a: Action, t: Claims, ttl: Lifetimes)
    requires CoreOk(s.core, ttl) && a.Lookup? && Enabled(s, a) && PcOk(s.core, a.client, PcOf(s, a.client), ttl)
    requires t in s.core.signed && Usable(t)
    requires Current(s.core, t.sessionId, t.id) && OwnJobs(s, t)
    requires Undisturbed(s, a, t)
    ensures GoesOn(s, Next(s, a, ttl), t)
  {
    hide CoreOk, Parses, Fits, WasCurrent;
    CurrentFits(s.core, t, ttl);
    LifetimesValid(s.core, ttl);
    var ids := [a.accessId, a.refreshId];
    assert ids[0] == a.accessId && ids[1] == a.refreshId;
  }

  lemma UnspentCommand(s: State, c: nat, pc: Pc, expiryAborts: bool, t: Claims, ttl: Lifetimes)
    requires CoreOk(s.core, ttl) && pc == PcOf(s, c) && PcOk(s.core, c, pc, ttl)
    requires t in s.core.signed && Usable(t)
    requires Current(s.core, t.sessionId, t.id) && OwnJobs(s, t) && Alive(s.core, t.sessionId)
    ensures GoesOn(s, CommandStep(s, c, pc, expiryAborts, ttl), t)
    ensures pc.Executing? && pc.job.token == t ==>
              var after := CommandStep(s, c, pc, expiryAborts, ttl);
              |after.ended| == |s.ended| + 1 && IsWin(after.ended[|s.ended|], t)
  {
    hide CoreOk, Parses, Fits, WasCurrent, PairPending, SnapshotOk;
    CurrentFits(s.core, t, ttl);
  }

  lemma LifetimesValid(core: Core, ttl: Lifetimes)
    requires CoreOk(core, ttl)
    ensures ttl.Valid()
  {
  }

  /** At most one call ended, and not unfairly for `t`. */
  ghost predicate EndsFairly(s: State, after: State, t: Claims) {
    || after.ended == s.ended
    || (exists e :: after.ended == s.ended + [e] && (e.token == t ==> e.result.Ok? || e.result == Err(InvalidToken)))
  }

  lemma FairCommand(s: State, c: nat, pc: Pc, expiryAborts: bool, t: Claims, ttl: Lifetimes)
    requires PcOk(s.core, c, pc, ttl)
    ensures EndsFairly(s, CommandStep(s, c, pc, expiryAborts, ttl), t)
  {
    hide Fits, JobOk, SnapshotOk, WatchOk, JobCurrent;
  }

  lemma FairLookup(s: State, a: Action, t: Claims, ttl: Lifetimes)
    requires a.Lookup? && Enabled(s, a) && Undisturbed(s, a, t) && Usable(t) && ttl.Valid()
    requires PcOk(s.core, a.client, PcOf(s, a.client), ttl)
    ensures EndsFairly(s, Next(s, a, ttl), t)
  {
    hide WasCurrent;
    var ids := [a.accessId, a.refreshId];
    assert ids[0] == a.accessId && ids[1] == a.refreshId;
  }

  lemma FairStep(s: State, a: Action, t: Claims, ttl: Lifetimes)
    requires Inv(s, ttl) && Enabled(s, a) && Undisturbed(s, a, t) && Usable(t)
    ensures EndsFairly(s, Next(s, a, ttl), t)
  {
    hide CoreOk, ClientsOk, EndingsOk, Parses, PcOk;
    match a
    case Command(c, expiryAborts) =>
      PcHolds(s, c, ttl);
      FairCommand(s, c, PcOf(s, c), expiryAborts, t, ttl);
    case Lookup(c, _, _, _, _) =>
      PcHolds(s, c, ttl);
      LifetimesValid(s.core, ttl);
      FairLookup(s, a, t, ttl);
    case _ =>
  }

  /** Once the token is spent, every further refresh with it is turned away as invalid. */
  lemma SpentStep(s: State, a: Action, t: Claims, base: nat, ttl: Lifetimes)
    requires Inv(s, ttl) && Enabled(s, a) && Usable(t)
    requires Spent(s, t, base) && FairLosses(s, t, base) && Undisturbed(s, a, t)
    ensures Spent(Next(s, a, ttl), t, base) && FairLosses(Next(s, a, ttl), t, base)
  {
    hide Inv, Next, Enabled, Undisturbed;
    FairStep(s, a, t, ttl);
    var k :| base <= k < |s.ended| && IsWin(s.ended[k], t);
    assert IsWin(Next(s, a, ttl).ended[k], t);
  }

  lemma {:induction false} CalmRunKeeps(s: State, run: seq<Action>, t: Claims, base: nat, ttl: Lifetimes)
    requires Inv(s, ttl) && CanRun(s, run, ttl) && CalmRun(s, run, t, ttl)
    requires t in s.core.signed && Usable(t) && base <= |s.ended|
    requires Unspent(s, t, base) || Spent(s, t, base)
    requires FairLosses(s, t, base)
    ensures Unspent(After(s, run, ttl), t, base) || Spent(After(s, run, ttl), t, base)
    ensures FairLosses(After(s, run, ttl), t, base)
    decreases |run|
  {
    hide Inv, Unspent, Spent, FairLosses, Undisturbed, Alive;
    if run != [] {
      var after := Next(s, run[0], ttl);
      StepKeeps(s, run[0], ttl);
      SignedStays(s, run[0], ttl);
      if Unspent(s, t, base) {
        UnspentStep(s, run[0], t, base, ttl);
      } else {
        SpentStep(s, run[0], t, base, ttl);
      }
      CalmRunKeeps(after, run[1..], t, base, ttl);
    }
  }

  lemma SignedStays(s: State, a: Action, ttl: Lifetimes)
    ensures s.core.signed <= Next(s, a, ttl).core.signed
    ensures |s.ended| <= |Next(s, a, ttl).ended|
  {
  }

  /** Single use with a winner: from a state in which the token is accepted and no
      refresh with it is under way, any undisturbed run, with any number of clients
      refreshing with it in any interleaving, ends with exactly one of them holding a
      pair and every other one told ErrInvalidToken, as soon as at least one has
      finished. */
  lemma ExactlyOneWinner(s: State, run: seq<Action>, t: Claims, ttl: Lifetimes) returns (winner: nat)
    requires Reachable(s, ttl) && CanRun(s, run, ttl) && CalmRun(s, run, t, ttl)
    requires Accepted(s.core, t) && t.kind == Refresh
    requires forall c :: c in s.clients ==> !Working(s.clients[c], t)
    requires exists k :: |s.ended| <= k < |After(s, run, ttl).ended| && After(s, run, ttl).ended[k].token == t
    ensures |s.ended| <= winner < |After(s, run, ttl).ended|
    ensures IsWin(After(s, run, ttl).ended[winner], t)
    ensures forall k ::
              |s.ended| <= k < |After(s, run, ttl).ended| && After(s, run, ttl).ended[k].token == t && k != winner ==>
              After(s, run, ttl).ended[k].result == Err(InvalidToken)
  {
    hide Reachable, Inv, CanRun, CalmRun;
    var last := After(s, run, ttl);
    ReachableInv(s, ttl);
    RunKeeps(s, run, ttl);
    assert Unspent(s, t, |s.ended|);
    CalmRunKeeps(s, run, t, |s.ended|, ttl);
    winner :| |s.ended| <= winner < |last.ended| && IsWin(last.ended[winner], t);
    forall k | |s.ended| <= k < |last.ended| && last.ended[k].token == t && k != winner
      ensures last.ended[k].result == Err(InvalidToken)
    {
      WinnerIsAlone(last, winner, k, ttl);
    }
  }

  lemma WinnerIsAlone(s: State, j: nat, k: nat, ttl: Lifetimes)
    requires Inv(s, ttl) && j < |s.ended| && k < |s.ended| && j != k
    requires s.ended[j].result.Ok? && s.ended[j].token == s.ended[k].token
    ensures !s.ended[k].result.Ok?
  {
    hide CoreOk, ClientsOk;
  }
}
