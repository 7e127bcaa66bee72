/** Whether a logout that was answered with success is final. A logout whose GET finds
    nothing succeeds without a DEL; the session may come back if a rotation in flight is
    not stopped by the expiry of the key that it watches. */
module ProtocolLogout {
  import opened Domain
  import opened Keyspace
  import opened Tokens
  import opened Protocol
  import opened ProtocolInvariant
  import opened ProtocolRuns
  import opened ProtocolTheorems
  import opened Samples
  import opened SampleRuns

  /** The client's next command is the last one of a deletion of the session, and answers:
      the EXEC, or a GET that finds nothing. */
  predicate LogoutReturns(s: State, c: nat, id: string) {
    match PcOf(s, c)
    case DeleteExecuting(key, _) => key == id
    case DeleteReading(key) => key == id && Find(s.core.store, s.core.now, id).None?
    case _ => false
  }

  /** A server of one kind: EXEC aborts, or does not, on a watched key that has expired. */
  predicate Uniform(run: seq<Action>, expiryAborts: bool) {
    forall i :: 0 <= i < |run| && run[i].Command? ==> run[i].expiryAborts == expiryAborts
  }

  /** The session was stored once and is not there now. */
  predicate Over(s: State, id: string) {
    id in s.core.history && Find(s.core.store, s.core.now, id).None?
  }

  lemma LastCommandEnds(s: State, c: nat, id: string, expiryAborts: bool, ttl: Lifetimes)
    requires Inv(s, ttl) && LogoutReturns(s, c, id)
    ensures Over(Next(s, Command(c, expiryAborts), ttl), id)
  {
    hide CoreOk, ClientsOk, EndingsOk;
    PcHolds(s, c, ttl);
    if PcOf(s, c).DeleteExecuting? {
      DropEffect(s.core.store, s.core.now, id, PcOf(s, c).session);
    }
  }

  /** On a server that aborts such an EXEC, no command brings a session back. */
  lemma CommandStaysOver(s: State, c: nat, pc: Pc, id: string, ttl: Lifetimes)
    requires CoreOk(s.core, ttl) && PcOk(s.core, c, pc, ttl) && Over(s, id)
    ensures Over(CommandStep(s, c, pc, true, ttl), id)
  {
    hide CoreOk, WasCurrent, PairPending, WatchOk, JobCurrent, SnapshotOk, Fits;
    if pc.DeleteExecuting? {
      DropEffect(s.core.store, s.core.now, pc.sessionId, pc.session);
    }
  }

  lemma StepStaysOver(s: State, a: Action, id: string, ttl: Lifetimes)
    requires Inv(s, ttl) && Enabled(s, a) && Over(s, id) && (a.Command? ==> a.expiryAborts)
    ensures Over(Next(s, a, ttl), id)
  {
    hide CoreOk, ClientsOk, EndingsOk;
    if a.Command? {
      PcHolds(s, a.client, ttl);
      CommandStaysOver(s, a.client, PcOf(s, a.client), id, ttl);
    }
  }

  lemma {:induction false} RunStaysOver(s: State, run: seq<Action>, id: string, ttl: Lifetimes)
    requires Inv(s, ttl) && CanRun(s, run, ttl) && Over(s, id) && Uniform(run, true)
    ensures Over(After(s, run, ttl), id)
    decreases |run|
  {
    hide Inv, Over;
    if run != [] {
      StepStaysOver(s, run[0], id, ttl);
      StepKeeps(s, run[0], ttl);
      RunStaysOver(Next(s, run[0], ttl), run[1..], id, ttl);
    }
  }

  /** After a logout that returns success no token of the session is ever accepted. */
  ghost predicate LogoutFinal(expiryAborts: bool) {
    forall s, c, id, run, t: Claims, ttl ::
      Reachable(s, ttl) && LogoutReturns(s, c, id)
      && CanRun(s, [Command(c, expiryAborts)] + run, ttl) && Uniform(run, expiryAborts) && t.sessionId == id
      ==> !Accepted(After(s, [Command(c, expiryAborts)] + run, ttl).core, t)
  }

  lemma SuccessfulLogoutIsFinal(s: State, c: nat, id: string, run: seq<Action>, t: Claims, ttl: Lifetimes)
    requires Reachable(s, ttl) && LogoutReturns(s, c, id)
    requires CanRun(s, [Command(c, true)] + run, ttl) && Uniform(run, true) && t.sessionId == id
    ensures !Accepted(After(s, [Command(c, true)] + run, ttl).core, t)
  {
    hide Reachable, Inv, LogoutReturns, Uniform;
    ReachableInv(s, ttl);
    var whole := [Command(c, true)] + run;
    assert whole[0] == Command(c, true) && whole[1..] == run;
    StepKeeps(s, whole[0], ttl);
    LastCommandEnds(s, c, id, true, ttl);
    RunStaysOver(Next(s, whole[0], ttl), run, id, ttl);
  }

  /** The exact condition: every successful logout is final if and only if the server
      aborts an EXEC whose watched key has expired. */
  lemma LogoutFinalIff(expiryAborts: bool)
    ensures LogoutFinal(expiryAborts) <==> expiryAborts
  {
    hide Reachable, LogoutReturns, CanRun, After, Uniform, Accepted;
    if expiryAborts {
      forall s, c, id, run, t: Claims, ttl |
        Reachable(s, ttl) && LogoutReturns(s, c, id)
        && CanRun(s, [Command(c, true)] + run, ttl) && Uniform(run, true) && t.sessionId == id
        ensures !Accepted(After(s, [Command(c, true)] + run, ttl).core, t)
      {
        SuccessfulLogoutIsFinal(s, c, id, run, t, ttl);
      }
    } else {
      var s, t := LogoutUndone();
      var run := [Command(1, false)];
      assert Uniform(run, false) by { OneCommand(); }
      assert LogoutReturns(s, 2, "s") by { FindsNothing(s, 2, "s"); }
      assert CanRun(s, [Command(2, false)] + run, TTL);
    }
  }

  lemma FindsNothing(s: State, c: nat, id: string)
    requires PcOf(s, c) == DeleteReading(id) && Find(s.core.store, s.core.now, id).None?
    ensures LogoutReturns(s, c, id)
  {
  }

  lemma OneCommand()
    ensures Uniform([Command(1, false)], false)
  {
  }
}
