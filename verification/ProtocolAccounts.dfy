/** Role changes and deletions of users among the commands of the protocol. A change
    revokes the user's sessions first and writes the tables afterwards; a login or refresh
    reads the tables at one step and stores its session at a later one. */
module ProtocolAccounts {
  import opened Domain
  import opened Keyspace
  import opened Tokens
  import opened Protocol
  import opened ProtocolInvariant
  import opened ProtocolRuns
  import opened ProtocolTheorems

  /** What one write made of a user, its role names and whether it is deleted, and the
      sweep that came before the write. */
  datatype Edition = Edition(roles: seq<string>, deleted: bool, sweep: nat)

  /** The protocol's state, every edition of every user, and for each token id the edition
      that its minting read. */
  datatype Tracked = Tracked(s: State, editions: map<string, seq<Edition>>, born: map<string, nat>)

  datatype Move =
    | Inner(a: Action)
    | Write(userId: string, roles: seq<string>, sweep: nat)
    | Remove(userId: string, sweep: nat)

  function Editions(r: Tracked, userId: string): (editions: seq<Edition>)
    ensures editions != []
  {
    if userId in r.editions && r.editions[userId] != [] then r.editions[userId] else [Edition([], false, 0)]
  }

  function Newest(r: Tracked, userId: string): nat {
    |Editions(r, userId)| - 1
  }

  function Latest(r: Tracked, userId: string): Edition {
    Editions(r, userId)[Newest(r, userId)]
  }

  /** A user who is there and has these roles. */
  predicate Reads(r: Tracked, userId: string, roles: seq<string>) {
    Latest(r, userId).roles == roles && !Latest(r, userId).deleted
  }

  /** A finished sweep of the user, who is there. */
  predicate Revoked(r: Tracked, userId: string, sweep: nat) {
    sweep < |r.s.core.sweeps| && r.s.core.sweeps[sweep].userId == userId && !Latest(r, userId).deleted
  }

  /** User lookups find present users with their roles as they are; a write or a deletion
      follows a finished sweep of its user. */
  predicate Allowed(r: Tracked, m: Move) {
    match m
    case Inner(a) =>
      && Enabled(r.s, a)
      && (a.Login? ==> Reads(r, a.user.id, a.roles))
      && (a.Lookup? && a.found.Ok? ==> Reads(r, a.found.value.id, a.roles))
    case Write(userId, _, sweep) => Revoked(r, userId, sweep)
    case Remove(userId, sweep) => Revoked(r, userId, sweep)
  }

  function Born(r: Tracked, a: Action): map<string, nat> {
    if a.Login? then r.born[a.accessId := Newest(r, a.user.id)][a.refreshId := Newest(r, a.user.id)]
    else if a.Lookup? && a.found.Ok? then
      r.born[a.accessId := Newest(r, a.found.value.id)][a.refreshId := Newest(r, a.found.value.id)]
    else r.born
  }

  function Moved(r: Tracked, m: Move, ttl: Lifetimes): Tracked {
    match m
    case Inner(a) => Tracked(Next(r.s, a, ttl), r.editions, Born(r, a))
    case Write(userId, roles, sweep) => Append(r, userId, Edition(roles, false, sweep))
    case Remove(userId, sweep) => Append(r, userId, Edition(Latest(r, userId).roles, true, sweep))
  }

  function Append(r: Tracked, userId: string, edition: Edition): Tracked {
    r.(editions := r.editions[userId := Editions(r, userId) + [edition]])
  }

  predicate CanMove(r: Tracked, moves: seq<Move>, ttl: Lifetimes)
    decreases |moves|
  {
    moves == [] || (Allowed(r, moves[0]) && CanMove(Moved(r, moves[0], ttl), moves[1..], ttl))
  }

  function AfterMoves(r: Tracked, moves: seq<Move>, ttl: Lifetimes): Tracked
    decreases |moves|
  {
    if moves == [] then r else AfterMoves(Moved(r, moves[0], ttl), moves[1..], ttl)
  }

  ghost predicate TrackedInitial(r: Tracked) {
    Initial(r.s) && r.born == map[] && forall u :: |Editions(r, u)| == 1
  }

  ghost predicate TrackedReachable(r: Tracked, ttl: Lifetimes) {
    ttl.Valid() && exists start, moves ::
      TrackedInitial(start) && CanMove(start, moves, ttl) && AfterMoves(start, moves, ttl) == r
  }

  // ---- what every move keeps ----

  /** Every token carries the roles of the edition it was born with, which was of a present user. */
  predicate BornOk(r: Tracked) {
    forall t :: t in r.s.core.signed ==>
      && t.id in r.born && r.born[t.id] < |Editions(r, t.subject)|
      && Editions(r, t.subject)[r.born[t.id]].roles == t.roles
      && !Editions(r, t.subject)[r.born[t.id]].deleted
  }

  /** Every later edition was written after a sweep of its user. */
  ghost predicate SweptBefore(r: Tracked) {
    forall u, v :: 1 <= v < |Editions(r, u)| ==>
      var k := Editions(r, u)[v].sweep;
      k < |r.s.core.sweeps| && r.s.core.sweeps[k].userId == u
  }

  /** The pair that a client is about to store: it can be stored, and both tokens are signed. */
  predicate PairSigned(core: Core, next: AuthSession, ttl: Lifetimes) {
    && Storable(next, ttl.refresh)
    && MintToken(next, Access, next.expiresAt - ttl.refresh, ttl) in core.signed
    && MintToken(next, Refresh, next.expiresAt - ttl.refresh, ttl) in core.signed
  }

  /** The session that the client's next command, or a later one, is to store. */
  function Carried(pc: Pc): Option<AuthSession> {
    match pc
    case Creating(next) => Some(next)
    case Watching(job, _) => Some(job.next)
    case Reading(job, _, _) => Some(job.next)
    case Executing(job, _, _) => Some(job.next)
    case _ => None
  }

  /** Both tokens are signed of every session that is stored or about to be. */
  predicate PairsSigned(s: State, ttl: Lifetimes) {
    && (forall c :: c in s.clients && Carried(s.clients[c]).Some? ==>
        PairSigned(s.core, Carried(s.clients[c]).value, ttl))
    && (forall id :: id in s.core.store.sessions ==> PairSigned(s.core, s.core.store.sessions[id].value, ttl))
  }

  ghost predicate TrackedInv(r: Tracked, ttl: Lifetimes) {
    Inv(r.s, ttl) && BornOk(r) && SweptBefore(r) && PairsSigned(r.s, ttl)
  }

  lemma SignedGrows(s: State, a: Action, ttl: Lifetimes)
    ensures s.core.signed <= Next(s, a, ttl).core.signed
  {
    if a.Command? {
      CommandSignsNothing(s, a.client, PcOf(s, a.client), a.expiryAborts, ttl);
      hide CommandStep;
    }
  }

  /** A client comes to carry a session when it has minted its pair, and then keeps it. */
  lemma Carries(s: State, a: Action, ttl: Lifetimes, c: nat)
    requires c in Next(s, a, ttl).clients && Carried(Next(s, a, ttl).clients[c]).Some?
    ensures var next := Carried(Next(s, a, ttl).clients[c]);
      || (c in s.clients && Carried(s.clients[c]) == next)
      || PairSigned(Next(s, a, ttl).core, next.value, ttl)
  {
    hide PairSigned;
    match a
    case Login(_, _, _, _, _, _) => MintCarries(s, a, ttl, c);
    case Lookup(_, _, _, _, _) => MintCarries(s, a, ttl, c);
    case Command(d, expiryAborts) => CommandCarries(s, d, PcOf(s, d), expiryAborts, ttl, c);
    case _ =>
  }

  lemma MintCarries(s: State, a: Action, ttl: Lifetimes, c: nat)
    requires a.Login? || a.Lookup?
    requires c in Next(s, a, ttl).clients && Carried(Next(s, a, ttl).clients[c]).Some?
    ensures var next := Carried(Next(s, a, ttl).clients[c]);
      || (c in s.clients && Carried(s.clients[c]) == next)
      || PairSigned(Next(s, a, ttl).core, next.value, ttl)
  {
  }

  lemma CommandCarries(s: State, d: nat, pc: Pc, expiryAborts: bool, ttl: Lifetimes, c: nat)
    requires pc == PcOf(s, d)
    requires var after := CommandStep(s, d, pc, expiryAborts, ttl);
      c in after.clients && Carried(after.clients[c]).Some?
    ensures c in s.clients && Carried(s.clients[c]) == Carried(CommandStep(s, d, pc, expiryAborts, ttl).clients[c])
  {
    hide Fits;
  }

  /** A session is stored by the client that carried it. */
  lemma CellsCarried(s: State, a: Action, ttl: Lifetimes, id: string)
    requires id in Next(s, a, ttl).core.store.sessions
    ensures var session := Next(s, a, ttl).core.store.sessions[id].value;
      || (id in s.core.store.sessions && s.core.store.sessions[id].value == session)
      || (exists c :: c in s.clients && Carried(s.clients[c]) == Some(session))
  {
    if a.Command? {
      CommandCells(s, a.client, PcOf(s, a.client), a.expiryAborts, ttl, id);
      hide CommandStep;
    }
  }

  lemma CommandCells(s: State, c: nat, pc: Pc, expiryAborts: bool, ttl: Lifetimes, id: string)
    requires pc == PcOf(s, c) && id in CommandStep(s, c, pc, expiryAborts, ttl).core.store.sessions
    ensures var session := CommandStep(s, c, pc, expiryAborts, ttl).core.store.sessions[id].value;
      || (id in s.core.store.sessions && s.core.store.sessions[id].value == session)
      || (c in s.clients && Carried(s.clients[c]) == Some(session))
  {
    hide Fits, Drop;
    if pc.DeleteExecuting? {
      DropEffect(s.core.store, s.core.now, pc.sessionId, pc.session);
    }
  }

  lemma PairsStep(s: State, a: Action, ttl: Lifetimes)
    requires PairsSigned(s, ttl)
    ensures PairsSigned(Next(s, a, ttl), ttl)
  {
    hide Next, Carried;
    SignedGrows(s, a, ttl);
    var after := Next(s, a, ttl);
    forall c | c in after.clients && Carried(after.clients[c]).Some?
      ensures PairSigned(after.core, Carried(after.clients[c]).value, ttl)
    {
      Carries(s, a, ttl, c);
    }
    forall id | id in after.core.store.sessions
      ensures PairSigned(after.core, after.core.store.sessions[id].value, ttl)
    {
      CellsCarried(s, a, ttl, id);
    }
  }

  predicate MintedBy(t: Claims, userId: string, roles: seq<string>, accessId: string, refreshId: string) {
    t.subject == userId && t.roles == roles && (t.id == accessId || t.id == refreshId)
  }

  /** Only logins and lookups sign, and what they sign carries the roles they read. */
  lemma Signs(s: State, a: Action, ttl: Lifetimes, t: Claims)
    requires t in Next(s, a, ttl).core.signed && t !in s.core.signed
    ensures (a.Login? && MintedBy(t, a.user.id, a.roles, a.accessId, a.refreshId)) ||
            (a.Lookup? && a.found.Ok? && MintedBy(t, a.found.value.id, a.roles, a.accessId, a.refreshId))
  {
    if a.Command? {
      CommandSignsNothing(s, a.client, PcOf(s, a.client), a.expiryAborts, ttl);
      hide CommandStep;
    }
  }

  lemma CommandSignsNothing(s: State, c: nat, pc: Pc, expiryAborts: bool, ttl: Lifetimes)
    ensures CommandStep(s, c, pc, expiryAborts, ttl).core.signed == s.core.signed
  {
    hide Fits, Put, Drop, Erase;
  }

  /** A token signed earlier keeps the edition it was born with. */
  lemma BirthStays(r: Tracked, a: Action, ttl: Lifetimes, t: Claims)
    requires SignedOk(r.s.core, ttl) && Enabled(r.s, a) && t in r.s.core.signed
    ensures t.id in r.born ==> t.id in Born(r, a) && Born(r, a)[t.id] == r.born[t.id]
  {
    if a.Login? {
      var ids := [a.sessionId, a.accessId, a.refreshId];
      assert ids[1] == a.accessId && ids[2] == a.refreshId;
    } else if a.Lookup? {
      var ids := [a.accessId, a.refreshId];
      assert ids[0] == a.accessId && ids[1] == a.refreshId;
    }
  }

  lemma InnerBorn(r: Tracked, a: Action, ttl: Lifetimes)
    requires SignedOk(r.s.core, ttl) && BornOk(r) && Allowed(r, Inner(a))
    ensures BornOk(Moved(r, Inner(a), ttl))
  {
    hide SignedOk, Next, Enabled, Editions;
    var after := Moved(r, Inner(a), ttl);
    forall t | t in after.s.core.signed
      ensures t.id in after.born && after.born[t.id] < |Editions(after, t.subject)|
      ensures Editions(after, t.subject)[after.born[t.id]].roles == t.roles
      ensures !Editions(after, t.subject)[after.born[t.id]].deleted
    {
      SameEditions(r, after, t.subject);
      if t in r.s.core.signed {
        BirthStays(r, a, ttl, t);
      } else {
        Signs(r.s, a, ttl, t);
      }
    }
  }

  lemma SameEditions(r: Tracked, after: Tracked, userId: string)
    requires after.editions == r.editions
    ensures Editions(after, userId) == Editions(r, userId)
  {
  }

  lemma SweepsGrow(r: Tracked, after: Tracked)
    requires SweptBefore(r) && after.editions == r.editions && r.s.core.sweeps <= after.s.core.sweeps
    ensures SweptBefore(after)
  {
    forall u ensures Editions(after, u) == Editions(r, u) {
    }
  }

  lemma InnerKeeps(r: Tracked, a: Action, ttl: Lifetimes)
    requires TrackedInv(r, ttl) && Allowed(r, Inner(a))
    ensures TrackedInv(Moved(r, Inner(a), ttl), ttl)
  {
    hide CoreOk, ClientsOk, EndingsOk, BornOk, SweptBefore, PairsSigned, Next, Enabled, Born;
    StepKeeps(r.s, a, ttl);
    CoreSigned(r.s.core, ttl);
    InnerBorn(r, a, ttl);
    PairsStep(r.s, a, ttl);
    SweepsStay(r.s, a, ttl);
    SweepsGrow(r, Moved(r, Inner(a), ttl));
  }

  lemma SweepsStay(s: State, a: Action, ttl: Lifetimes)
    requires Inv(s, ttl) && Enabled(s, a)
    ensures s.core.sweeps <= Next(s, a, ttl).core.sweeps
  {
    hide Inv, Enabled, Next;
    var c := StepEvolves(s, a, ttl);
  }

  lemma CoreSigned(core: Core, ttl: Lifetimes)
    requires CoreOk(core, ttl)
    ensures SignedOk(core, ttl)
  {
  }

  lemma AppendKeeps(r: Tracked, userId: string, edition: Edition, ttl: Lifetimes)
    requires TrackedInv(r, ttl) && Revoked(r, userId, edition.sweep)
    ensures TrackedInv(Append(r, userId, edition), ttl)
  {
    hide Inv, PairsSigned;
    var after := Append(r, userId, edition);
    forall u ensures Editions(r, u) <= Editions(after, u) && (u != userId ==> Editions(after, u) == Editions(r, u)) {
    }
  }

  lemma AppendMoves(r: Tracked, m: Move, ttl: Lifetimes)
    requires TrackedInv(r, ttl) && Allowed(r, m) && !m.Inner?
    ensures TrackedInv(Moved(r, m, ttl), ttl)
  {
    hide TrackedInv;
    var roles := if m.Write? then m.roles else Latest(r, m.userId).roles;
    AppendKeeps(r, m.userId, Edition(roles, m.Remove?, m.sweep), ttl);
  }

  lemma {:induction false} MovesKeep(r: Tracked, moves: seq<Move>, ttl: Lifetimes)
    requires TrackedInv(r, ttl) && CanMove(r, moves, ttl)
    ensures TrackedInv(AfterMoves(r, moves, ttl), ttl)
    decreases |moves|
  {
    hide TrackedInv, Allowed, Moved;
    if moves != [] {
      match moves[0] {
        case Inner(a) => InnerKeeps(r, a, ttl);
        case Write(userId, roles, sweep) => AppendMoves(r, moves[0], ttl);
        case Remove(userId, sweep) => AppendMoves(r, moves[0], ttl);
      }
      MovesKeep(Moved(r, moves[0], ttl), moves[1..], ttl);
    }
  }

  lemma TrackedHolds(r: Tracked, ttl: Lifetimes)
    requires TrackedReachable(r, ttl)
    ensures TrackedInv(r, ttl)
  {
    var start, moves :| TrackedInitial(start) && CanMove(start, moves, ttl) && AfterMoves(start, moves, ttl) == r;
    hide CanMove, AfterMoves;
    InitialInv(start.s, ttl);
    hide Inv;
    MovesKeep(start, moves, ttl);
  }

  // ---- stale tokens ----

  /** The session was last stored after the DEL of this sweep, or in between the SMEMBERS
      and the DEL of a sweep of its user that had not seen it. */
  ghost predicate Escaped(core: Core, id: string, sweep: nat)
    requires sweep < |core.sweeps|
  {
    core.sweeps[sweep].erased < Added(core, id) || Swept(core, id)
  }

  /** A live session has escaped every sweep of its user. */
  lemma LiveEscaped(core: Core, id: string, sweep: nat, ttl: Lifetimes)
    requires CoreOk(core, ttl) && Find(core.store, core.now, id).Some?
    requires sweep < |core.sweeps| && core.sweeps[sweep].userId == Find(core.store, core.now, id).value.userId
    ensures Escaped(core, id, sweep)
  {
    hide HistoryOk, OriginsOk, CellsOk, TouchedOk, SignedOk;
    if Covered(core, id) {
      var u := core.store.sessions[id].value.userId;
      assert id in core.store.index[u].value;
    }
  }

  /** The token names a user who is deleted or has other roles by now. */
  predicate Stale(r: Tracked, t: Claims) {
    !Reads(r, t.subject, t.roles)
  }

  /** Exactly which stored tokens a change leaves behind. An accepted token carries what
      its user lookup read, so it is stale if and only if the user is not as it was read;
      then the lookup came before a write or the deletion, and for every such change the
      token's session escaped the sweep that preceded it. */
  lemma StaleTokensEscaped(r: Tracked, t: Claims, ttl: Lifetimes)
    requires TrackedReachable(r, ttl) && Accepted(r.s.core, t)
    ensures t.id in r.born && r.born[t.id] <= Newest(r, t.subject)
    ensures var read := Editions(r, t.subject)[r.born[t.id]];
            !read.deleted && (Stale(r, t) <==> !Reads(r, t.subject, read.roles))
    ensures Stale(r, t) ==> r.born[t.id] < Newest(r, t.subject)
    ensures forall v :: r.born[t.id] < v <= Newest(r, t.subject) ==>
              var k := Editions(r, t.subject)[v].sweep;
              k < |r.s.core.sweeps| && r.s.core.sweeps[k].userId == t.subject && Escaped(r.s.core, t.sessionId, k)
  {
    hide TrackedReachable, ClientsOk, EndingsOk, CoreOk, Escaped, PairsSigned;
    TrackedHolds(r, ttl);
    forall v | r.born[t.id] < v <= Newest(r, t.subject)
      ensures var k := Editions(r, t.subject)[v].sweep;
              k < |r.s.core.sweeps| && r.s.core.sweeps[k].userId == t.subject && Escaped(r.s.core, t.sessionId, k)
    {
      LiveEscaped(r.s.core, t.sessionId, Editions(r, t.subject)[v].sweep, ttl);
    }
  }

  /** An accepted token names a deleted account only if the deletion came after its user
      lookup and its session escaped the sweep of that deletion. */
  lemma GoneTokensEscaped(r: Tracked, t: Claims, ttl: Lifetimes)
    requires TrackedReachable(r, ttl) && Accepted(r.s.core, t) && Latest(r, t.subject).deleted
    ensures t.id in r.born && r.born[t.id] < Newest(r, t.subject)
    ensures var k := Latest(r, t.subject).sweep;
      k < |r.s.core.sweeps| && r.s.core.sweeps[k].userId == t.subject && Escaped(r.s.core, t.sessionId, k)
  {
    hide TrackedReachable, Accepted, Escaped;
    StaleTokensEscaped(r, t, ttl);
  }

  /** So a change is seen at once by every session that was stored before its sweep deleted
      sessions and that no sweep missed: no accepted token of such a session is stale. */
  lemma NoStaleWithoutEscape(r: Tracked, t: Claims, ttl: Lifetimes)
    requires TrackedReachable(r, ttl) && Accepted(r.s.core, t)
    requires !Swept(r.s.core, t.sessionId)
    requires var k := Latest(r, t.subject).sweep;
      Newest(r, t.subject) > 0 && k < |r.s.core.sweeps| ==> Added(r.s.core, t.sessionId) <= r.s.core.sweeps[k].erased
    ensures !Stale(r, t)
  {
    hide TrackedReachable, Accepted, Swept;
    StaleTokensEscaped(r, t, ttl);
  }

  // ---- tokens in flight ----

  /** The client's next command stores this session. */
  predicate Stores(s: State, c: nat, expiryAborts: bool, next: AuthSession) {
    match PcOf(s, c)
    case Creating(session) => session == next
    case Executing(job, _, seen) => job.next == next && !ExecFails(s.core, job.sessionId, seen, expiryAborts)
    case _ => false
  }

  /** When a minted pair is within its window at this moment. */
  predicate InWindow(next: AuthSession, kind: TokenType, now: int, ttl: Lifetimes) {
    && now <= next.expiresAt
    && (kind == Access ==> now < Truncate(next.expiresAt - ttl.refresh + ttl.access) + LEEWAY)
  }

  /** Every stale token that is accepted, told by the store: it is a token, within its
      window, of a live session whose user is not any more as the session says. */
  lemma AcceptedStaleIff(r: Tracked, t: Claims, ttl: Lifetimes)
    requires TrackedReachable(r, ttl)
    ensures Accepted(r.s.core, t) && Stale(r, t) <==>
            var found := Find(r.s.core.store, r.s.core.now, t.sessionId);
            && found.Some?
            && t == MintToken(found.value, t.kind, found.value.expiresAt - ttl.refresh, ttl)
            && found.value.email != "" && InWindow(found.value, t.kind, r.s.core.now, ttl)
            && !Reads(r, found.value.userId, found.value.roles)
  {
    hide TrackedReachable, BornOk, SweptBefore, Reachable, ClientsOk, EndingsOk, HistoryOk, OriginsOk, TouchedOk,
      SignedOk, MembersOk, CoverageOk;
    TrackedHolds(r, ttl);
    var found := Find(r.s.core.store, r.s.core.now, t.sessionId);
    if found.Some? {
      LiveIsMinted(r.s.core, t.sessionId, ttl);
      WindowParses(found.value, t.kind, r.s.core.now, ttl);
    }
    if Accepted(r.s.core, t) {
      TrackedIsReachable(r, ttl);
      var session, mint := AcceptanceWindow(r.s, t, ttl);
    }
    hide Parses, InWindow, Reads;
  }

  lemma LiveIsMinted(core: Core, id: string, ttl: Lifetimes)
    requires CoreOk(core, ttl) && id in core.store.sessions
    ensures core.store.sessions[id].value.id == id
    ensures core.store.sessions[id].value.expiresAt <= core.now + ttl.refresh
  {
    OwnerOfCell(core, id, ttl);
  }

  /** What a stored pair is worth: each token is accepted exactly within its window, if it
      names an address. */
  lemma StoredIsAccepted(core: Core, next: AuthSession, kind: TokenType, ttl: Lifetimes)
    requires ttl.Valid() && PairSigned(core, next, ttl) && next.expiresAt <= core.now + ttl.refresh
    ensures var after := Publish(core, next, ttl.refresh);
      Accepted(after, MintToken(next, kind, next.expiresAt - ttl.refresh, ttl)) <==>
      next.email != "" && InWindow(next, kind, core.now, ttl)
  {
    WindowParses(next, kind, core.now, ttl);
    hide Parses;
  }

  lemma WindowParses(next: AuthSession, kind: TokenType, now: int, ttl: Lifetimes)
    requires ttl.Valid() && Storable(next, ttl.refresh) && next.expiresAt <= now + ttl.refresh
    ensures now <= next.expiresAt && Parses(MintToken(next, kind, next.expiresAt - ttl.refresh, ttl), now) <==>
            next.email != "" && InWindow(next, kind, now, ttl)
  {
  }

  lemma StoringPublishes(s: State, c: nat, expiryAborts: bool, next: AuthSession, ttl: Lifetimes)
    requires Inv(s, ttl) && PairsSigned(s, ttl) && Stores(s, c, expiryAborts, next)
    ensures Next(s, Command(c, expiryAborts), ttl).core == Publish(s.core, next, ttl.refresh)
    ensures ttl.Valid() && PairSigned(s.core, next, ttl) && next.expiresAt <= s.core.now + ttl.refresh
  {
    hide ClientsOk, EndingsOk, HistoryOk, OriginsOk, CellsOk, TouchedOk, SignedOk, MembersOk, CoverageOk, WasCurrent;
    PcHolds(s, c, ttl);
  }

  /** The other half: whoever minted a pair before a change and stores it after the change
      holds a stale token that is accepted, if and only if the pair names an address, is
      still within its window, and the user is not any more as the pair says. */
  lemma InFlightIsStaleIff(
    r: Tracked, c: nat, expiryAborts: bool, next: AuthSession, kind: TokenType, ttl: Lifetimes)
    requires TrackedReachable(r, ttl) && Stores(r.s, c, expiryAborts, next)
    ensures Allowed(r, Inner(Command(c, expiryAborts)))
    ensures var after := Moved(r, Inner(Command(c, expiryAborts)), ttl);
      var t := MintToken(next, kind, next.expiresAt - ttl.refresh, ttl);
      && t in r.s.core.signed
      && (Accepted(after.s.core, t) && Stale(after, t) <==>
          next.email != "" && InWindow(next, kind, r.s.core.now, ttl) && !Reads(r, next.userId, next.roles))
  {
    hide TrackedReachable, Inv, BornOk, SweptBefore, PairsSigned, Accepted, InWindow, Publish, Next;
    TrackedHolds(r, ttl);
    StoringPublishes(r.s, c, expiryAborts, next, ttl);
    StoredIsAccepted(r.s.core, next, kind, ttl);
    SameEditions(r, Moved(r, Inner(Command(c, expiryAborts)), ttl), next.userId);
  }

  // ---- runs of moves ----

  lemma {:induction false} MovesCompose(r: Tracked, moves: seq<Move>, m: Move, ttl: Lifetimes)
    requires CanMove(r, moves, ttl) && Allowed(AfterMoves(r, moves, ttl), m)
    ensures CanMove(r, moves + [m], ttl) && AfterMoves(r, moves + [m], ttl) == Moved(AfterMoves(r, moves, ttl), m, ttl)
    decreases |moves|
  {
    hide Allowed, Moved;
    if moves == [] {
      assert [m][1..] == [] && moves + [m] == [m];
      assert CanMove(Moved(r, m, ttl), [], ttl) && AfterMoves(Moved(r, m, ttl), [], ttl) == Moved(r, m, ttl);
    } else {
      MovesCompose(Moved(r, moves[0], ttl), moves[1..], m, ttl);
      assert (moves + [m])[1..] == moves[1..] + [m];
    }
  }

  lemma MoveReaches(r: Tracked, m: Move, ttl: Lifetimes)
    requires TrackedReachable(r, ttl) && Allowed(r, m)
    ensures TrackedReachable(Moved(r, m, ttl), ttl)
  {
    hide Allowed, Moved, TrackedInitial, CanMove, AfterMoves;
    var start, moves :| TrackedInitial(start) && CanMove(start, moves, ttl) && AfterMoves(start, moves, ttl) == r;
    MovesCompose(start, moves, m, ttl);
  }

  /** The changes do not disturb the protocol: its part of a tracked state is reachable. */
  lemma {:induction false} MovesRun(
    r: Tracked, moves: seq<Move>, start: State, run: seq<Action>, ttl: Lifetimes)
    returns (whole: seq<Action>)
    requires CanMove(r, moves, ttl) && CanRun(start, run, ttl) && After(start, run, ttl) == r.s
    ensures CanRun(start, whole, ttl) && After(start, whole, ttl) == AfterMoves(r, moves, ttl).s
    decreases |moves|
  {
    hide Enabled, Next, CanRun, After, Born, Editions;
    whole := run;
    if moves != [] {
      if moves[0].Inner? {
        RunsCompose(start, run, moves[0].a, ttl);
        whole := run + [moves[0].a];
      }
      whole := MovesRun(Moved(r, moves[0], ttl), moves[1..], start, whole, ttl);
    }
  }

  lemma TrackedIsReachable(r: Tracked, ttl: Lifetimes)
    requires TrackedReachable(r, ttl)
    ensures Reachable(r.s, ttl)
  {
    var start, moves :| TrackedInitial(start) && CanMove(start, moves, ttl) && AfterMoves(start, moves, ttl) == r;
    hide CanMove, AfterMoves;
    assert CanRun(start.s, [], ttl) && After(start.s, [], ttl) == start.s;
    var run := MovesRun(start, moves, start.s, [], ttl);
    hide CanRun, After;
  }
}
