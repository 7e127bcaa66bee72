/** Listing users page by page. The database sorts by creation time, newest first, and
    may arrange users created at the same moment in any order, anew for each query. */
module Paging {
  import opened Domain
  import opened UserTable
  import opened PageCount

  /** Integers as they arrive from the query string: any 64-bit value. */
  datatype Request = Request(page: int, perPage: int, status: string)

  /** One page of users with the totals beside it. */
  datatype Response<T> = Response(users: seq<T>, totalItems: nat, totalPages: nat, page: int, perPage: int)

  const MAX_INT: int := 0x7FFF_FFFF_FFFF_FFFF

  /** The defaults that the service fills in, and the repository once more. */
  function Clamp(request: Request): Request {
    request.(
      page := if request.page <= 0 then 1 else request.page,
      perPage := if request.perPage <= 0 || request.perPage > 100 then 20 else request.perPage)
  }

  predicate Clamped(request: Request) {
    1 <= request.page && 1 <= request.perPage <= 100
  }

  /** Clamping twice is clamping once, so both layers page by the same numbers; a request
      that is in range already is left alone. */
  lemma ClampIsStable(request: Request)
    ensures var r := Clamp(request);
      && r.status == request.status
      && r.page == (if request.page >= 1 then request.page else 1)
      && r.perPage == (if 1 <= request.perPage <= 100 then request.perPage else 20)
    ensures Clamped(Clamp(request))
    ensures Clamp(request) == request <==> Clamped(request)
    ensures Clamp(Clamp(request)) == Clamp(request)
  {
  }

  predicate Supported(status: string) {
    status in {"", "active", "suspended"}
  }

  function Matching(table: Table, status: string): set<string> {
    set id | id in table.rows && Present(table, id) &&
      (status == "active" ==> table.rows[id].isActive) && (status == "suspended" ==> !table.rows[id].isActive)
  }

  /** What a listed user shows. */
  predicate HasStatus(row: Row, status: string) {
    && StatusOf(row) != Deleted
    && (status == "active" ==> StatusOf(row) == Active)
    && (status == "suspended" ==> StatusOf(row) == Suspended)
  }

  lemma MatchingIs(table: Table, status: string)
    requires Supported(status)
    ensures Matching(table, status) ==
            set id | id in table.rows && !table.rows[id].deleted && (
                       || status == ""
                       || (status == "active" && table.rows[id].isActive)
                       || (status == "suspended" && !table.rows[id].isActive))
  {
  }

  // ---- arrangements ----

  ghost predicate Distinct(xs: seq<string>) {
    forall i, j :: 0 <= i < j < |xs| ==> xs[i] != xs[j]
  }

  /** Each of `ids` exactly once. */
  ghost predicate EachOnce(ids: set<string>, xs: seq<string>) {
    Distinct(xs) && (forall id :: id in xs <==> id in ids)
  }

  ghost predicate NewestFirst(created: string -> int, xs: seq<string>) {
    forall i, j :: 0 <= i < j < |xs| ==> created(xs[i]) >= created(xs[j])
  }

  /** What a query ordered by creation time may produce. */
  ghost predicate Arranged(ids: set<string>, created: string -> int, xs: seq<string>) {
    EachOnce(ids, xs) && NewestFirst(created, xs)
  }

  ghost predicate NoTies(created: string -> int, ids: set<string>) {
    forall a, b :: a in ids && b in ids && created(a) == created(b) ==> a == b
  }

  lemma {:induction false} OneArrangement(ids: set<string>, created: string -> int, xs: seq<string>, ys: seq<string>)
    requires Arranged(ids, created, xs) && Arranged(ids, created, ys) && NoTies(created, ids)
    ensures xs == ys
  {
    if xs == [] {
      ArrangementSize(ids, xs);
      ArrangementSize(ids, ys);
    } else {
      assert xs[0] in ys && ys[0] in xs;
      assert created(xs[0]) == created(ys[0]);
      TailArranged(ids, created, xs);
      TailArranged(ids, created, ys);
      OneArrangement(ids - {xs[0]}, created, xs[1..], ys[1..]);
    }
  }

  lemma TailArranged(ids: set<string>, created: string -> int, xs: seq<string>)
    requires Arranged(ids, created, xs) && xs != []
    ensures Arranged(ids - {xs[0]}, created, xs[1..])
  {
    assert xs == [xs[0]] + xs[1..];
    forall id ensures id in xs[1..] <==> id in ids - {xs[0]} {
      assert id in xs[1..] ==> exists k :: 1 <= k < |xs| && xs[k] == id;
    }
  }

  // ---- one page ----

  /** Two's complement wrap-around at 64 bits. */
  function Wrap(x: int): int {
    (x + MAX_INT + 1) % (2 * (MAX_INT + 1)) - MAX_INT - 1
  }

  /** The rows the query skips; it has no OFFSET clause unless the offset is positive. */
  function Skipped(page: int, perPage: int): nat {
    var offset := Wrap((page - 1) * perPage);
    if offset > 0 then offset else 0
  }

  function Window<T>(xs: seq<T>, skip: nat, limit: nat): seq<T> {
    if skip >= |xs| then [] else if skip + limit >= |xs| then xs[skip..] else xs[skip..skip + limit]
  }

  lemma WindowIsPresent(table: Table, status: string, xs: seq<string>, skip: nat, limit: nat)
    requires EachOnce(Matching(table, status), xs)
    ensures forall k :: 0 <= k < |Window(xs, skip, limit)| ==>
              Window(xs, skip, limit)[k] in table.rows && HasStatus(table.rows[Window(xs, skip, limit)[k]], status)
    ensures |xs| == |Matching(table, status)|
  {
    forall k | 0 <= k < |xs| ensures xs[k] in table.rows && HasStatus(table.rows[xs[k]], status) {
      assert xs[k] in Matching(table, status);
    }
    ArrangementSize(Matching(table, status), xs);
  }

  function PageOf(xs: seq<string>, page: int, perPage: nat): seq<string> {
    Window(xs, Skipped(page, perPage), perPage)
  }

  lemma WrapFits(x: int)
    requires -MAX_INT - 1 <= x <= MAX_INT
    ensures Wrap(x) == x
  {
  }

  lemma WrapOver(x: int)
    requires MAX_INT < x <= 2 * MAX_INT + 1
    ensures Wrap(x) == x - 2 * (MAX_INT + 1) < 0
  {
  }

  // ---- the listing ----

  function RepositoryList(xs: seq<string>, request: Request): Outcome<(seq<string>, nat)> {
    var r := Clamp(request);
    if !Supported(r.status) then Err(InvalidInput) else Ok((PageOf(xs, r.page, r.perPage), |xs|))
  }

  /** The listing that the service answers with when its query arranges the matching
      users as `xs`. */
  function ListUsers(xs: seq<string>, request: Request): Outcome<Response<string>> {
    var r := Clamp(request);
    var listed := RepositoryList(xs, r);
    if listed.Err? then Err(listed.error)
    else Ok(Response(listed.value.0, listed.value.1, TotalPages(listed.value.1, r.perPage), r.page, r.perPage))
  }

  /** A listing is refused exactly for a status that is none of the three; else it echoes
      the page it shows and counts all the rows that its query yields. */
  lemma ListingAnswers(xs: seq<string>, request: Request)
    ensures ListUsers(xs, request) == Err(InvalidInput) <==>
            request.status != "" && request.status != "active" && request.status != "suspended"
    ensures ListUsers(xs, request).Ok? ==>
              var answer := ListUsers(xs, request).value;
              && answer.totalItems == |xs| && |answer.users| <= answer.perPage
              && answer.page == (if request.page >= 1 then request.page else 1)
              && answer.perPage == (if 1 <= request.perPage <= 100 then request.perPage else 20)
              && (|xs| <= LIMIT ==> answer.totalPages == (|xs| + answer.perPage - 1) / answer.perPage)
  {
    hide TotalPages, Skipped;
    if |xs| <= LIMIT {
      PageCountExact(|xs|, Clamp(request).perPage);
    }
  }

  /** Pages 1, 2, ... in turn, each from the arrangement its own query produced. */
  function Gather(runs: seq<seq<string>>, perPage: nat, status: string): seq<string> {
    if runs == [] then []
    else
      var n := |runs|;
      var last := ListUsers(runs[n - 1], Request(n, perPage, status));
      Gather(runs[..n - 1], perPage, status) + if last.Ok? then last.value.users else []
  }

  /** As many queries as the service announces pages, each answered from an arrangement
      of the same users. */
  ghost predicate FullRun(ids: set<string>, created: string -> int, runs: seq<seq<string>>, perPage: nat)
    requires 1 <= perPage <= 100
  {
    && |runs| == TotalPages(|ids|, perPage)
    && forall k :: 0 <= k < |runs| ==> Arranged(ids, created, runs[k])
  }

  // ---- pages partition the listing ----

  lemma {:induction false} ArrangementSize(ids: set<string>, xs: seq<string>)
    requires EachOnce(ids, xs)
    ensures |xs| == |ids|
  {
    if xs == [] {
      assert ids == {};
    } else {
      assert xs[0] in ids;
      TailArranged(ids, _ => 0, xs);
      ArrangementSize(ids - {xs[0]}, xs[1..]);
    }
  }

  lemma Past(k: nat, perPage: nat, n: nat)
    requires perPage > 0
    ensures k >= CeilDiv(n, perPage) <==> k * perPage >= n
  {
    if n > 0 {
      CeilDivBounds(n, perPage);
      var c := CeilDiv(n, perPage);
      if k >= c {
        MulLe(c, k, perPage);
      } else {
        MulLe(k, c - 1, perPage);
      }
    } else {
      DivBelow(perPage - 1, perPage, 1);
    }
  }

  lemma SkipsExactly(page: nat, perPage: nat)
    requires page > 0 && (page - 1) * perPage <= MAX_INT
    ensures Skipped(page, perPage) == (page - 1) * perPage
  {
    WrapFits((page - 1) * perPage);
  }

  lemma NextPage(xs: seq<string>, n: nat, perPage: nat)
    requires n > 0 && perPage > 0 && (n - 1) * perPage < |xs| <= MAX_INT
    ensures var done, end := (n - 1) * perPage, n * perPage;
            xs[..done] + PageOf(xs, n, perPage) == if end >= |xs| then xs else xs[..end]
  {
    SkipsExactly(n, perPage);
    assert n * perPage == (n - 1) * perPage + perPage;
  }

  /** With one arrangement, the first k pages are its first k * perPage users. */
  lemma {:induction false} GatherPrefix(xs: seq<string>, runs: seq<seq<string>>, perPage: nat, status: string)
    requires 1 <= perPage <= 100 && Supported(status) && |xs| <= LIMIT
    requires |runs| <= CeilDiv(|xs|, perPage)
    requires forall k :: 0 <= k < |runs| ==> runs[k] == xs
    ensures var end := |runs| * perPage; Gather(runs, perPage, status) == if end >= |xs| then xs else xs[..end]
  {
    hide CeilDiv, TotalPages, PageOf;
    var n := |runs|;
    if n > 0 {
      GatherPrefix(xs, runs[..n - 1], perPage, status);
      Past(n - 1, perPage, |xs|);
      NextPage(xs, n, perPage);
      assert ListUsers(runs[n - 1], Request(n, perPage, status)).value.users == PageOf(xs, n, perPage);
    }
  }

  lemma PagesPartition(ids: set<string>, created: string -> int, runs: seq<seq<string>>, perPage: nat, status: string)
    requires 1 <= perPage <= 100 && Supported(status) && |ids| <= LIMIT
    requires NoTies(created, ids) && FullRun(ids, created, runs, perPage)
    ensures EachOnce(ids, Gather(runs, perPage, status))
    ensures NewestFirst(created, Gather(runs, perPage, status))
  {
    hide CeilDiv, TotalPages;
    PageCountExact(|ids|, perPage);
    if runs == [] {
      Past(0, perPage, |ids|);
      assert ids == {};
    } else {
      var xs := runs[0];
      ArrangementSize(ids, xs);
      forall k | 0 <= k < |runs| ensures runs[k] == xs {
        OneArrangement(ids, created, runs[k], xs);
      }
      GatherPrefix(xs, runs, perPage, status);
      Past(|runs|, perPage, |xs|);
    }
  }

  lemma OnlyPage(xs: seq<string>, n: nat, status: string)
    requires Supported(status) && 0 < n <= |xs| <= LIMIT
    ensures ListUsers(xs, Request(n, 1, status)).Ok?
    ensures ListUsers(xs, Request(n, 1, status)).value.users == [xs[n - 1]]
  {
    hide TotalPages;
    SkipsExactly(n, 1);
  }

  /** One user a page: the k-th page shows the k-th user of the k-th arrangement. */
  lemma {:induction false} GatherOnes(runs: seq<seq<string>>, status: string)
    requires Supported(status)
    requires forall k :: 0 <= k < |runs| ==> |runs| <= |runs[k]| <= LIMIT
    ensures |Gather(runs, 1, status)| == |runs|
    ensures forall k :: 0 <= k < |runs| ==> Gather(runs, 1, status)[k] == runs[k][k]
  {
    hide ListUsers;
    var n := |runs|;
    if n > 0 {
      GatherOnes(runs[..n - 1], status);
      OnlyPage(runs[n - 1], n, status);
    }
  }

  lemma TiedNeighbours(ids: set<string>, created: string -> int, xs: seq<string>) returns (i: nat)
    requires Arranged(ids, created, xs) && !NoTies(created, ids)
    ensures i + 1 < |xs| && created(xs[i]) == created(xs[i + 1])
  {
    var a, b :| a in ids && b in ids && created(a) == created(b) && a != b;
    var j :| 0 <= j < |xs| && xs[j] == a;
    var k :| 0 <= k < |xs| && xs[k] == b;
    i := if j < k then j else k;
  }

  lemma SwapArranged(ids: set<string>, created: string -> int, xs: seq<string>, i: nat)
    requires Arranged(ids, created, xs) && i + 1 < |xs| && created(xs[i]) == created(xs[i + 1])
    ensures Arranged(ids, created, xs[i := xs[i + 1]][i + 1 := xs[i]])
  {
    var ys := xs[i := xs[i + 1]][i + 1 := xs[i]];
    forall id ensures id in ys <==> id in xs {
      if id in xs {
        var k :| 0 <= k < |xs| && xs[k] == id;
        assert ys[if k == i then i + 1 else if k == i + 1 then i else k] == id;
      }
    }
  }

  /** Two users created at the same moment can change places between two queries; one is
      then shown twice and the other not at all. */
  lemma TieRepeatsUser(ids: set<string>, created: string -> int, xs: seq<string>, status: string)
    returns (runs: seq<seq<string>>)
    requires Arranged(ids, created, xs) && !NoTies(created, ids) && |ids| <= LIMIT && Supported(status)
    ensures FullRun(ids, created, runs, 1) && !EachOnce(ids, Gather(runs, 1, status))
  {
    hide TotalPages, NoTies;
    var i := TiedNeighbours(ids, created, xs);
    SwapArranged(ids, created, xs, i);
    var ys := xs[i := xs[i + 1]][i + 1 := xs[i]];
    runs := seq(|xs|, k requires 0 <= k < |xs| => if k <= i then xs else ys);
    ArrangementSize(ids, xs);
    PageCountExact(|ids|, 1);
    GatherOnes(runs, status);
    var shown := Gather(runs, 1, status);
    assert shown[i] == runs[i][i] && shown[i + 1] == runs[i + 1][i + 1];
    assert shown[i] == shown[i + 1];
  }

  /** Reading every announced page shows each matching user exactly once, whatever the
      page size and however the database arranges each query, if and only if no two of
      them were created at the same moment. */
  lemma PagesPartitionIff(ids: set<string>, created: string -> int, xs: seq<string>, status: string)
    requires Arranged(ids, created, xs) && |ids| <= LIMIT && Supported(status)
    ensures (forall runs, perPage: nat :: 1 <= perPage <= 100 && FullRun(ids, created, runs, perPage) ==>
               EachOnce(ids, Gather(runs, perPage, status)))
            <==> NoTies(created, ids)
  {
    hide FullRun, EachOnce, NoTies, Arranged;
    if NoTies(created, ids) {
      forall runs, perPage: nat | 1 <= perPage <= 100 && FullRun(ids, created, runs, perPage)
        ensures EachOnce(ids, Gather(runs, perPage, status))
      {
        PagesPartition(ids, created, runs, perPage, status);
      }
    } else {
      var runs := TieRepeatsUser(ids, created, xs, status);
    }
  }

  // ---- pages beyond the last ----

  /** The first page number whose offset does not fit 64 bits. */
  function FirstOverflow(perPage: nat): nat
    requires perPage > 0
  {
    CeilDiv(MAX_INT + 1, perPage) + 1
  }

  /** It shows the first page. With one user a page no request can carry it. */
  lemma OverflowRestarts(xs: seq<string>, perPage: nat, bound: nat)
    requires 1 <= perPage <= 100
    ensures PageOf(xs, FirstOverflow(perPage), perPage) == Window(xs, 0, perPage)
    ensures (bound - 1) * perPage > MAX_INT ==> FirstOverflow(perPage) <= bound
    ensures FirstOverflow(perPage) <= MAX_INT <==> perPage >= 2
  {
    hide CeilDiv;
    var c := CeilDiv(MAX_INT + 1, perPage);
    CeilDivBounds(MAX_INT + 1, perPage);
    assert (c - 1) * perPage == c * perPage - perPage;
    WrapOver(c * perPage);
    if bound > 0 {
      Past(bound - 1, perPage, MAX_INT + 1);
    }
    if perPage >= 2 {
      MulLe(2, perPage, c - 1);
    }
  }

  /** For all page numbers that a request can carry up to a bound, a page shows somebody
      exactly when its number is within the announced pages, if and only if nobody is
      listed or no offset up to the bound overflows; with one user a page none does. The
      first offset that overflows shows the first page again. */
  lemma PageWithinTotalIff(xs: seq<string>, perPage: nat, status: string, bound: nat)
    requires |xs| <= LIMIT && 1 <= perPage <= 100 && Supported(status) && bound <= MAX_INT
    ensures (forall page: nat :: 1 <= page <= bound ==>
               var answer := ListUsers(xs, Request(page, perPage, status));
               (answer.value.users != [] <==> page <= answer.value.totalPages))
            <==> xs == [] || (bound - 1) * perPage <= MAX_INT
    ensures perPage == 1 ==> (bound - 1) * perPage <= MAX_INT
  {
    hide CeilDiv, TotalPages;
    PageCountExact(|xs|, perPage);
    if xs == [] {
      Past(0, perPage, 0);
    } else if (bound - 1) * perPage <= MAX_INT {
      PagesWithin(xs, perPage, bound);
    } else {
      var page := FirstOverflow(perPage);
      OverflowRestarts(xs, perPage, bound);
      Past(page - 1, perPage, |xs|);
      Past(page - 1, perPage, MAX_INT + 1);
      var answer := ListUsers(xs, Request(page, perPage, status));
      assert answer.value.users != [] && page > answer.value.totalPages;
    }
  }

  lemma PagesWithin(xs: seq<string>, perPage: nat, bound: nat)
    requires 0 < |xs| <= LIMIT && 1 <= perPage <= 100 && (bound - 1) * perPage <= MAX_INT
    ensures forall page: nat :: 1 <= page <= bound ==>
              (PageOf(xs, page, perPage) != [] <==> page <= CeilDiv(|xs|, perPage))
  {
    hide CeilDiv;
    forall page: nat | 1 <= page <= bound
      ensures PageOf(xs, page, perPage) != [] <==> page <= CeilDiv(|xs|, perPage)
    {
      MulLe(page - 1, bound - 1, perPage);
      SkipsExactly(page, perPage);
      Past(page - 1, perPage, |xs|);
    }
  }
}
