/** The readiness report: one sender per dependency puts its result into a buffered
    channel, and one collector reads until all have answered or the time is up. */
module Readiness {

  /** What a dependency's check does when it is called; `Missing` is a nil check. */
  datatype Check = Missing | Succeeds | Fails

  datatype Dependency = Dependency(name: string, check: Check)

  /** `dependencies` maps a name to whether it is up. */
  datatype Report = Report(ready: bool, dependencies: map<string, bool>)

  predicate Up(d: Dependency) {
    d.check == Succeeds
  }

  function Names(deps: seq<Dependency>): set<string> {
    set i | 0 <= i < |deps| :: deps[i].name
  }

  predicate InRange(n: nat, xs: seq<nat>) {
    forall k :: 0 <= k < |xs| ==> xs[k] < n
  }

  /** The senders whose results were read before the collector returned, in order. When
      some are missing, the collector returned because the time was up. */
  predicate Arrivals(n: nat, xs: seq<nat>) {
    InRange(n, xs) && forall j, k :: 0 <= j < k < |xs| ==> xs[j] != xs[k]
  }

  function Answered(deps: seq<Dependency>, xs: seq<nat>): set<string>
    requires InRange(|deps|, xs)
  {
    set k | 0 <= k < |xs| :: deps[xs[k]].name
  }

  /** The last answer under a name; none counts as down. */
  function LastAnswer(deps: seq<Dependency>, xs: seq<nat>, name: string): bool
    requires InRange(|deps|, xs)
  {
    if xs == [] then false
    else
      var d := deps[xs[|xs| - 1]];
      if d.name == name then Up(d) else LastAnswer(deps, xs[..|xs| - 1], name)
  }

  function Entries(deps: seq<Dependency>, xs: seq<nat>): map<string, bool>
    requires InRange(|deps|, xs)
  {
    map name | name in Answered(deps, xs) :: LastAnswer(deps, xs, name)
  }

  /** Every name is reported, as its last answer says; ready is when all answered and are up. */
  function ReportOf(deps: seq<Dependency>, xs: seq<nat>): Report
    requires InRange(|deps|, xs)
  {
    Report(|xs| == |deps| && forall k :: 0 <= k < |xs| ==> Up(deps[xs[k]]),
           map name | name in Names(deps) :: LastAnswer(deps, xs, name))
  }

  class Checker {
    const dependencies: seq<Dependency>

    constructor (dependencies: seq<Dependency>)
      ensures this.dependencies == dependencies
    {
      this.dependencies := dependencies;
    }

    method MarkDown(answered: map<string, bool>, pending: set<string>) returns (entries: map<string, bool>)
      ensures entries == answered + map name | name in pending :: false
    {
      entries := answered;
      var rest := pending;
      while rest != {}
        invariant rest <= pending && entries == answered + map name | name in pending - rest :: false
      {
        var name :| name in rest;
        rest := rest - {name};
        entries := entries[name := false];
      }
    }

    method Check(arrivals: seq<nat>) returns (report: Report)
      requires Arrivals(|dependencies|, arrivals)
      ensures report == ReportOf(dependencies, arrivals)
      ensures forall name :: name in report.dependencies <==> exists d :: d in dependencies && d.name == name
      ensures report.ready <==>
              forall i :: 0 <= i < |dependencies| ==> i in arrivals && dependencies[i].check == Succeeds
    {
      hide LastAnswer, Entries, Names;
      ArrivalsFit(|dependencies|, arrivals);
      NoneAnswered(dependencies);
      ReadyIff(dependencies, arrivals);
      ReportNames(dependencies, arrivals);
      report := Report(true, map[]);
      if |dependencies| == 0 {
        return;
      }
      var pending := Names(dependencies);
      for completed := 0 to |dependencies|
        invariant completed <= |arrivals|
        invariant report.dependencies == Entries(dependencies, arrivals[..completed])
        invariant pending == Names(dependencies) - report.dependencies.Keys
        invariant report.ready <==> forall k :: 0 <= k < completed ==> Up(dependencies[arrivals[k]])
      {
        if completed == |arrivals| {
          // The time is up.
          assert arrivals[..completed] == arrivals;
          var entries := MarkDown(report.dependencies, pending);
          EntriesComplete(dependencies, arrivals);
          return Report(false, entries);
        }
        // A result is read from the channel.
        var d := dependencies[arrivals[completed]];
        EntriesNext(dependencies, arrivals, completed);
        pending := pending - {d.name};
        if !Up(d) {
          report := Report(false, report.dependencies[d.name := false]);
          continue;
        }
        report := report.(dependencies := report.dependencies[d.name := true]);
      }
      assert arrivals[..|dependencies|] == arrivals;
      EntriesComplete(dependencies, arrivals);
    }
  }

  // ---- arrivals ----

  lemma {:induction false} ArrivalsFit(n: nat, xs: seq<nat>)
    requires Arrivals(n, xs)
    ensures |xs| <= n
    ensures |xs| == n ==> forall i :: 0 <= i < n ==> i in xs
  {
    var seen := set k | 0 <= k < |xs| :: xs[k];
    SeenSize(xs);
    Subset(seen, Senders(n));
    if |xs| == n {
      forall i | 0 <= i < n ensures i in xs {
        assert i in Senders(n) && seen == Senders(n);
      }
    }
  }

  function Senders(n: nat): (senders: set<nat>)
    ensures |senders| == n && forall i: nat :: i in senders <==> i < n
  {
    if n == 0 then {} else Senders(n - 1) + {n - 1}
  }

  lemma {:induction false} SeenSize(xs: seq<nat>)
    requires forall j, k :: 0 <= j < k < |xs| ==> xs[j] != xs[k]
    ensures |set k | 0 <= k < |xs| :: xs[k]| == |xs|
  {
    if xs != [] {
      var n := |xs| - 1;
      SeenSize(xs[..n]);
      assert (set k | 0 <= k < |xs| :: xs[k]) == (set k | 0 <= k < n :: xs[..n][k]) + {xs[n]};
    }
  }

  lemma Subset(a: set<nat>, b: set<nat>)
    requires forall x :: x in a ==> x in b
    ensures |a| <= |b|
    ensures |a| == |b| ==> a == b
  {
    var rest := b - a;
    assert b == a + rest;
  }

  lemma NoneAnswered(deps: seq<Dependency>)
    ensures Entries(deps, []) == map[]
    ensures deps == [] ==> Names(deps) == {}
  {
  }

  lemma AnsweredNext(deps: seq<Dependency>, xs: seq<nat>, k: nat)
    requires InRange(|deps|, xs) && k < |xs|
    ensures Answered(deps, xs[..k + 1]) == Answered(deps, xs[..k]) + {deps[xs[k]].name}
    ensures Answered(deps, xs[..k + 1]) <= Names(deps)
  {
    var some, more := xs[..k], xs[..k + 1];
    assert forall i :: 0 <= i < k ==> more[i] == some[i];
    forall name | name in Answered(deps, some) ensures name in Answered(deps, more) {
      var i :| 0 <= i < k && deps[some[i]].name == name;
      assert more[i] == some[i];
    }
  }

  lemma EntriesNext(deps: seq<Dependency>, xs: seq<nat>, k: nat)
    requires InRange(|deps|, xs) && k < |xs|
    ensures Entries(deps, xs[..k + 1]) == Entries(deps, xs[..k])[deps[xs[k]].name := Up(deps[xs[k]])]
  {
    hide Answered, Names;
    AnsweredNext(deps, xs, k);
    var more, d := xs[..k + 1], deps[xs[k]];
    assert more[..k] == xs[..k] && more[k] == xs[k];
    forall name | name in Answered(deps, more)
      ensures LastAnswer(deps, more, name) == if d.name == name then Up(d) else LastAnswer(deps, xs[..k], name)
    {
    }
  }

  /** The unanswered names are down in the report, and none is left when all answered. */
  lemma EntriesComplete(deps: seq<Dependency>, xs: seq<nat>)
    requires Arrivals(|deps|, xs)
    ensures ReportOf(deps, xs).dependencies ==
            Entries(deps, xs) + map name | name in Names(deps) - Entries(deps, xs).Keys :: false
    ensures |xs| == |deps| ==> Entries(deps, xs).Keys == Names(deps)
  {
    NotAnswered(deps, xs);
    if |xs| == |deps| {
      ArrivalsFit(|deps|, xs);
      forall i | 0 <= i < |deps| ensures deps[i].name in Answered(deps, xs) {
        assert i in xs;
      }
    }
  }

  lemma {:induction false} NotAnswered(deps: seq<Dependency>, xs: seq<nat>)
    requires InRange(|deps|, xs)
    ensures forall name :: name !in Answered(deps, xs) ==> !LastAnswer(deps, xs, name)
    ensures Answered(deps, xs) <= Names(deps)
  {
    if xs != [] {
      var n := |xs| - 1;
      assert xs[..n + 1] == xs;
      NotAnswered(deps, xs[..n]);
      AnsweredNext(deps, xs, n);
    }
  }

  // ---- what the report means ----

  /** Every dependency is in the report under its name, and nothing else is. */
  lemma ReportNames(deps: seq<Dependency>, xs: seq<nat>)
    requires InRange(|deps|, xs)
    ensures forall name :: name in ReportOf(deps, xs).dependencies <==> exists d :: d in deps && d.name == name
  {
    forall i | 0 <= i < |deps| ensures exists d :: d in deps && d.name == deps[i].name {
      assert deps[i] in deps;
    }
  }

  /** Ready means that every dependency answered in time and is up. */
  lemma ReadyIff(deps: seq<Dependency>, xs: seq<nat>)
    requires Arrivals(|deps|, xs)
    ensures ReportOf(deps, xs).ready <==> forall i :: 0 <= i < |deps| ==> i in xs && deps[i].check == Succeeds
  {
    ArrivalsFit(|deps|, xs);
    if forall i :: 0 <= i < |deps| ==> i in xs && Up(deps[i]) {
      SeenSize(xs);
      assert (set k | 0 <= k < |xs| :: xs[k]) == Senders(|deps|) by {
        forall i | i in Senders(|deps|) ensures i in xs {
          assert i < |deps|;
        }
      }
      forall k | 0 <= k < |xs| ensures Up(deps[xs[k]]) {
        assert xs[k] < |deps|;
      }
    }
  }

  predicate Distinct(names: seq<string>) {
    forall i, j :: 0 <= i < j < |names| ==> names[i] != names[j]
  }

  predicate Named(names: seq<string>, deps: seq<Dependency>) {
    |deps| == |names| && forall i :: 0 <= i < |names| ==> deps[i].name == names[i]
  }

  /** Each dependency is reported up exactly when it answered and is up. */
  predicate Faithful(deps: seq<Dependency>, xs: seq<nat>)
    requires InRange(|deps|, xs)
  {
    forall i :: 0 <= i < |deps| ==>
      (ReportOf(deps, xs).dependencies[deps[i].name] <==> i in xs && deps[i].check == Succeeds)
  }

  /** The overall status agrees with the entries. */
  predicate Coherent(deps: seq<Dependency>, xs: seq<nat>)
    requires InRange(|deps|, xs)
  {
    var report := ReportOf(deps, xs);
    report.ready <==> forall name :: name in report.dependencies ==> report.dependencies[name]
  }

  lemma {:induction false} OwnAnswer(deps: seq<Dependency>, names: seq<string>, xs: seq<nat>, i: nat)
    requires Named(names, deps) && Distinct(names) && InRange(|deps|, xs) && i < |deps|
    ensures LastAnswer(deps, xs, deps[i].name) <==> i in xs && Up(deps[i])
  {
    if xs != [] {
      var n := |xs| - 1;
      assert xs == xs[..n] + [xs[n]];
      OwnAnswer(deps, names, xs[..n], i);
      assert deps[xs[n]].name == deps[i].name ==> xs[n] == i;
    }
  }

  function Upto(n: nat): seq<nat> {
    seq(n, k requires 0 <= k < n => k)
  }

  /** All checks succeed but the i-th. */
  function AllBut(names: seq<string>, i: nat): seq<Dependency> {
    seq(|names|, k requires 0 <= k < |names| => Dependency(names[k], if k == i then Fails else Succeeds))
  }

  /** A later success under the same name hides the failure of the i-th. */
  lemma {:induction false} Hidden(names: seq<string>, i: nat, j: nat, m: nat, k: nat)
    requires i < j < |names| && names[i] == names[j]
    requires k < m <= |names| && (names[k] == names[i] ==> j < m)
    ensures LastAnswer(AllBut(names, i), Upto(m), names[k])
  {
    assert Upto(m)[..m - 1] == Upto(m - 1);
    if names[m - 1] != names[k] {
      Hidden(names, i, j, m - 1, k);
    }
  }

  lemma DuplicateMisleads(names: seq<string>)
    requires !Distinct(names)
    ensures exists deps, xs :: Named(names, deps) && Arrivals(|deps|, xs) && !Faithful(deps, xs) && !Coherent(deps, xs)
  {
    var i, j :| 0 <= i < j < |names| && names[i] == names[j];
    var deps, xs := AllBut(names, i), Upto(|names|);
    forall k | 0 <= k < |names| ensures LastAnswer(deps, xs, names[k]) {
      Hidden(names, i, j, |names|, k);
    }
    assert !Up(deps[xs[i]]);
    assert deps[i].name in Names(deps);
    assert !Faithful(deps, xs);
    assert !Coherent(deps, xs);
  }

  lemma DistinctIsFaithful(names: seq<string>, deps: seq<Dependency>, xs: seq<nat>)
    requires Distinct(names) && Named(names, deps) && Arrivals(|deps|, xs)
    ensures Faithful(deps, xs) && Coherent(deps, xs)
  {
    hide LastAnswer;
    forall i | 0 <= i < |deps| ensures LastAnswer(deps, xs, deps[i].name) <==> i in xs && Up(deps[i]) {
      OwnAnswer(deps, names, xs, i);
      assert deps[i].name in Names(deps);
    }
    ReadyIff(deps, xs);
  }

  /** For every outcome of the checks and every order of their answers and the timeout,
      the entries tell the truth about each dependency and the status agrees with the
      entries, if and only if the dependencies have distinct names. */
  lemma ReportIsFaithfulIff(names: seq<string>)
    ensures (forall deps, xs :: Named(names, deps) && Arrivals(|deps|, xs) ==> Faithful(deps, xs)) <==> Distinct(names)
    ensures (forall deps, xs :: Named(names, deps) && Arrivals(|deps|, xs) ==> Coherent(deps, xs)) <==> Distinct(names)
  {
    hide Faithful, Coherent, Distinct;
    if Distinct(names) {
      forall deps, xs | Named(names, deps) && Arrivals(|deps|, xs) ensures Faithful(deps, xs) && Coherent(deps, xs) {
        DistinctIsFaithful(names, deps, xs);
      }
    } else {
      DuplicateMisleads(names);
    }
  }

  // ---- senders, channel and collector ----

  /** The senders that have not sent, the channel, what the collector has read, and
      whether it has returned. */
  datatype Channel = Channel(unsent: set<nat>, buffer: seq<nat>, received: seq<nat>, returned: bool)

  datatype Event = Send(i: nat) | Receive | Timeout

  function Start(n: nat): Channel {
    Channel(Senders(n), [], [], n == 0)
  }

  /** A send needs room in the buffer of n places. */
  predicate Enabled(n: nat, c: Channel, e: Event) {
    match e
    case Send(i) => i in c.unsent && |c.buffer| < n
    case Receive => !c.returned && c.buffer != []
    case Timeout => !c.returned
  }

  function Step(n: nat, c: Channel, e: Event): Channel
    requires Enabled(n, c, e)
  {
    match e
    case Send(i) => c.(unsent := c.unsent - {i}, buffer := c.buffer + [i])
    case Receive =>
      c.(buffer := c.buffer[1..], received := c.received + [c.buffer[0]], returned := |c.received| + 1 == n)
    case Timeout => c.(returned := true)
  }

  predicate CanRun(n: nat, c: Channel, run: seq<Event>)
    decreases |run|
  {
    run != [] ==> Enabled(n, c, run[0]) && CanRun(n, Step(n, c, run[0]), run[1..])
  }

  function After(n: nat, c: Channel, run: seq<Event>): Channel
    requires CanRun(n, c, run)
    decreases |run|
  {
    if run == [] then c else After(n, Step(n, c, run[0]), run[1..])
  }

  /** Every sender is in exactly one place. */
  ghost predicate Accounted(n: nat, c: Channel) {
    && multiset(c.unsent) + multiset(c.buffer) + multiset(c.received) == multiset(Senders(n))
    && (!c.returned ==> |c.received| < n)
  }

  lemma StepAccounts(n: nat, c: Channel, e: Event)
    requires Accounted(n, c) && Enabled(n, c, e)
    ensures Accounted(n, Step(n, c, e))
  {
    if e.Receive? {
      assert c.buffer == [c.buffer[0]] + c.buffer[1..];
      assert |multiset(c.unsent) + multiset(c.buffer) + multiset(c.received)| == n;
    }
  }

  lemma {:induction false} RunAccounts(n: nat, c: Channel, run: seq<Event>)
    requires Accounted(n, c) && CanRun(n, c, run)
    ensures Accounted(n, After(n, c, run))
    decreases |run|
  {
    if run != [] {
      StepAccounts(n, c, run[0]);
      RunAccounts(n, Step(n, c, run[0]), run[1..]);
    }
  }

  lemma AccountedArrivals(n: nat, c: Channel)
    requires Accounted(n, c)
    ensures Arrivals(n, c.received)
    ensures |c.unsent| + |c.buffer| + |c.received| == n
  {
    var total := multiset(c.unsent) + multiset(c.buffer) + multiset(c.received);
    assert |total| == |c.unsent| + |c.buffer| + |c.received|;
    forall k | 0 <= k < |c.received| ensures c.received[k] < n {
      assert multiset(c.received)[c.received[k]] > 0;
      assert total[c.received[k]] > 0;
      assert c.received[k] in multiset(Senders(n));
    }
    forall j, k | 0 <= j < k < |c.received| ensures c.received[j] != c.received[k] {
      var x := c.received[j];
      assert c.received == c.received[..j] + [x] + c.received[j + 1..k] + [c.received[k]] + c.received[k + 1..];
      assert multiset(Senders(n))[x] <= 1;
      assert multiset(c.received)[x] <= total[x];
    }
  }

  /** Whatever the interleaving, also after the collector has returned, a sender that has
      its result can put it into the channel at once; and the collector sees no sender twice. */
  lemma SendersNeverBlock(n: nat, run: seq<Event>, i: nat)
    requires CanRun(n, Start(n), run) && i < n
    ensures var c := After(n, Start(n), run);
            (i in c.unsent ==> |c.buffer| < n && Enabled(n, c, Send(i))) && Arrivals(n, c.received)
  {
    RunAccounts(n, Start(n), run);
    var c := After(n, Start(n), run);
    AccountedArrivals(n, c);
    if i in c.unsent {
      assert |c.unsent| > 0;
    }
  }

  lemma {:induction false} RunsCompose(n: nat, c: Channel, run: seq<Event>, more: seq<Event>)
    requires CanRun(n, c, run) && CanRun(n, After(n, c, run), more)
    ensures CanRun(n, c, run + more) && After(n, c, run + more) == After(n, After(n, c, run), more)
    decreases |run|
  {
    if run == [] {
      assert run + more == more;
    } else {
      RunsCompose(n, Step(n, c, run[0]), run[1..], more);
      assert run + more == [run[0]] + (run[1..] + more);
    }
  }

  lemma SendAndRead(n: nat, c: Channel, i: nat)
    requires i in c.unsent && c.buffer == [] && !c.returned && n > 0
    ensures CanRun(n, c, [Send(i), Receive])
    ensures After(n, c, [Send(i), Receive]) ==
            Channel(c.unsent - {i}, [], c.received + [i], |c.received| + 1 == n)
  {
    var sent := Step(n, c, Send(i));
    var read := Step(n, sent, Receive);
    assert CanRun(n, read, []) && After(n, read, []) == read;
    assert CanRun(n, sent, [Receive]) && After(n, sent, [Receive]) == read;
  }

  /** Any order of answers cut off at any point is what the collector reads in some run. */
  lemma {:induction false} EveryArrivalHappens(n: nat, xs: seq<nat>) returns (run: seq<Event>)
    requires Arrivals(n, xs)
    ensures CanRun(n, Start(n), run)
    ensures var c := After(n, Start(n), run);
      && c.received == xs && c.buffer == [] && (c.returned <==> |xs| == n)
      && forall i: nat :: i in c.unsent <==> i < n && i !in xs
  {
    run := [];
    if xs != [] {
      hide CanRun, After;
      var k := |xs| - 1;
      ArrivalsFit(n, xs);
      run := EveryArrivalHappens(n, xs[..k]);
      var c := After(n, Start(n), run);
      assert xs == xs[..k] + [xs[k]];
      SendAndRead(n, c, xs[k]);
      RunsCompose(n, Start(n), run, [Send(xs[k]), Receive]);
      run := run + [Send(xs[k]), Receive];
      var read := After(n, Start(n), run);
      forall i: nat ensures i in read.unsent <==> i < n && i !in xs {
        assert i in c.unsent <==> i < n && i !in xs[..k];
      }
    }
  }

  // ---- reported and pending ----

  /** The names whose senders have not been read: waiting, or in the channel. */
  function Outstanding(deps: seq<Dependency>, c: Channel): set<string> {
    set i: nat | i < |deps| && (i in c.unsent || i in c.buffer) :: deps[i].name
  }

  /** Each sender is read, or outstanding, and not both. */
  lemma OnePlaceOnly(n: nat, c: Channel, i: nat)
    requires Accounted(n, c) && i < n
    ensures i in c.received <==> !(i in c.unsent || i in c.buffer)
  {
    var total := multiset(c.unsent) + multiset(c.buffer) + multiset(c.received);
    assert i in Senders(n);
    assert multiset(Senders(n))[i] == 1;
    assert total[i] == 1;
    assert i in c.received <==> multiset(c.received)[i] > 0;
    assert i in c.buffer <==> multiset(c.buffer)[i] > 0;
  }

  /** In every state of every run the reported names and the outstanding ones make up all
      names. */
  lemma ReportedOrOutstanding(deps: seq<Dependency>, run: seq<Event>)
    requires CanRun(|deps|, Start(|deps|), run)
    ensures var c := After(|deps|, Start(|deps|), run);
            InRange(|deps|, c.received) && Answered(deps, c.received) + Outstanding(deps, c) == Names(deps)
  {
    hide CanRun, After, Accounted;
    var n, c := |deps|, After(|deps|, Start(|deps|), run);
    assert Accounted(n, Start(n)) by { StartAccounts(n); }
    RunAccounts(n, Start(n), run);
    AccountedArrivals(n, c);
    forall i | 0 <= i < n ensures deps[i].name in Answered(deps, c.received) + Outstanding(deps, c) {
      OnePlaceOnly(n, c, i);
      if i in c.received {
        var k :| 0 <= k < |c.received| && c.received[k] == i;
      }
    }
  }

  lemma StartAccounts(n: nat)
    ensures Accounted(n, Start(n))
  {
  }

  /** They are two parts without a common name, throughout every run, if and only if the
      dependencies have distinct names: then what is pending is what is outstanding. */
  lemma PartitionIff(names: seq<string>, deps: seq<Dependency>)
    requires Named(names, deps)
    ensures (forall run :: CanRun(|deps|, Start(|deps|), run) ==>
               var c := After(|deps|, Start(|deps|), run);
               InRange(|deps|, c.received) && Answered(deps, c.received) !! Outstanding(deps, c))
            <==> Distinct(names)
  {
    hide CanRun, After;
    if Distinct(names) {
      forall run | CanRun(|deps|, Start(|deps|), run)
        ensures var c := After(|deps|, Start(|deps|), run);
                InRange(|deps|, c.received) && Answered(deps, c.received) !! Outstanding(deps, c)
      {
        DistinctPartition(names, deps, run);
      }
    } else {
      var i, j :| 0 <= i < j < |names| && names[i] == names[j];
      var run := EveryArrivalHappens(|deps|, [i]);
      var c := After(|deps|, Start(|deps|), run);
      assert c.received[0] == i && deps[i].name in Answered(deps, c.received);
      assert j in c.unsent && deps[j].name in Outstanding(deps, c);
    }
  }

  lemma DistinctPartition(names: seq<string>, deps: seq<Dependency>, run: seq<Event>)
    requires Named(names, deps) && Distinct(names) && CanRun(|deps|, Start(|deps|), run)
    ensures var c := After(|deps|, Start(|deps|), run);
            InRange(|deps|, c.received) && Answered(deps, c.received) !! Outstanding(deps, c)
  {
    hide CanRun, After, Accounted;
    var n, c := |deps|, After(|deps|, Start(|deps|), run);
    StartAccounts(n);
    RunAccounts(n, Start(n), run);
    AccountedArrivals(n, c);
    forall k, i: nat | 0 <= k < |c.received| && i < n && (i in c.unsent || i in c.buffer)
      ensures deps[c.received[k]].name != deps[i].name
    {
      OnePlaceOnly(n, c, i);
      assert c.received[k] in c.received && c.received[k] != i;
      assert names[c.received[k]] != names[i];
    }
  }
}
