/** The two levels meet: a client whose commands are not interleaved with others makes
    exactly the atomic step of the session store. */
module ProtocolSolo {
  import opened Domain
  import opened Keyspace
  import opened Protocol
  import SessionStore

  /** One client runs its next n commands in a row. */
  function Solo(s: State, c: nat, n: nat, expiryAborts: bool, ttl: Lifetimes): State
    decreases n
  {
    if n == 0 then s else Solo(Next(s, Command(c, expiryAborts), ttl), c, n - 1, expiryAborts, ttl)
  }

  lemma SoloCreate(s: State, c: nat, next: AuthSession, expiryAborts: bool, ttl: Lifetimes)
    requires PcOf(s, c) == Creating(next) && Storable(next, ttl.refresh)
    ensures Solo(s, c, 1, expiryAborts, ttl).core.store ==
            SessionStore.Create(s.core.store, s.core.now, next, ttl.refresh).0
  {
    assert Solo(s, c, 1, expiryAborts, ttl) == Solo(Next(s, Command(c, expiryAborts), ttl), c, 0, expiryAborts, ttl);
  }

  lemma SoloDelete(s: State, c: nat, id: string, expiryAborts: bool, ttl: Lifetimes)
    requires PcOf(s, c) == DeleteReading(id) && id != ""
    ensures Solo(s, c, 2, expiryAborts, ttl).core.store == SessionStore.Delete(s.core.store, s.core.now, id)
    ensures PcOf(Solo(s, c, 2, expiryAborts, ttl), c) == Idle
  {
    var read := Next(s, Command(c, expiryAborts), ttl);
    assert Solo(s, c, 2, expiryAborts, ttl) == Solo(read, c, 1, expiryAborts, ttl);
    assert Solo(read, c, 1, expiryAborts, ttl) ==
           Solo(Next(read, Command(c, expiryAborts), ttl), c, 0, expiryAborts, ttl);
  }

  lemma SoloDeleteAll(s: State, c: nat, userId: string, expiryAborts: bool, ttl: Lifetimes)
    requires PcOf(s, c) == Listing(userId) && userId != ""
    ensures Solo(s, c, 2, expiryAborts, ttl).core.store ==
            SessionStore.DeleteAllForUser(s.core.store, s.core.now, userId).0
    ensures PcOf(Solo(s, c, 2, expiryAborts, ttl), c) == Idle
  {
    var listed := Next(s, Command(c, expiryAborts), ttl);
    assert Solo(s, c, 2, expiryAborts, ttl) == Solo(listed, c, 1, expiryAborts, ttl);
    assert Solo(listed, c, 1, expiryAborts, ttl) ==
           Solo(Next(listed, Command(c, expiryAborts), ttl), c, 0, expiryAborts, ttl);
  }

  /** WATCH, GET and EXEC in a row are the atomic rotation, result included. */
  lemma SoloRotate(s: State, c: nat, job: Job, expiryAborts: bool, ttl: Lifetimes)
    requires PcOf(s, c) == Watching(job, 0)
    requires job.sessionId == job.next.id && job.token.id != "" && Storable(job.next, ttl.refresh)
    ensures
      var rotated := SessionStore.Rotate(
        s.core.store, s.core.now, job.sessionId, job.token.id, job.next, ttl.refresh);
      var read := Next(Next(s, Command(c, expiryAborts), ttl), Command(c, expiryAborts), ttl);
      var done := if rotated.1.Ok? then Next(read, Command(c, expiryAborts), ttl) else read;
      && done.core.store == rotated.0
      && PcOf(done, c) == Idle
      && done.ended == s.ended + [Ending(job.token, if rotated.1.Ok? then Ok(job.next) else Err(rotated.1.error))]
  {
    var watched := Next(s, Command(c, expiryAborts), ttl);
    assert PcOf(watched, c) == Reading(job, 0, Version(s.core, job.sessionId));
    var read := Next(watched, Command(c, expiryAborts), ttl);
    if SessionStore.CheckRotation(Find(s.core.store, s.core.now, job.sessionId), job.token.id, job.next) {
      assert PcOf(read, c) == Executing(job, 0, Version(s.core, job.sessionId));
    }
  }
}
