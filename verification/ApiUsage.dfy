/** The api's key-holder usage page over the ingested rows, and its agreement with the proxy's. */
module ApiUsage {
  import opened Wrappers
  import opened UsageIds
  import opened Rows
  import opened MergedUsage
  import opened ReadPromises

  /** Why a page is refused: a cursor whose time has more than twelve hexadecimal digits makes no
      UUID, so the query fails. */
  datatype Refused = CursorOutOfRange

  /** The padded `usageIdAtLeast` of the api. */
  function IdAtLeast(cursor: nat): Option<UsageId> {
    var ms := cursor / PER_MS + EPOCH_MS;
    if ms < MS_LIMIT then Some(Uuid7(ms, cursor % PER_MS, 0)) else None
  }

  /** Compared as UUIDs rather than as strings, the bound means the same. */
  lemma IdAtLeastMeansCursor(cursor: nat, u: UsageId)
    requires IdAtLeast(cursor).Some?
    ensures !Less(u, IdAtLeast(cursor).value) <==> Cursor(u) >= cursor
  {
  }

  function Select(table: seq<UsageRow>, wanted: UsageRow -> bool, n: nat): seq<UsageRow> {
    FirstN(SortRows(Filter(table, wanted)), n)
  }

  /** The page is full and the bound for its tail is no UUID: its last row is stamped with the last
      counter of the last 48-bit millisecond. */
  predicate TailFails(first: seq<UsageRow>, limit: nat) {
    && |first| == limit > 0 && RowCursor(first[limit - 1]) >= 0
    && IdAtLeast(RowCursor(first[limit - 1]) + 1).None?
  }

  /** The handler's reads: the page, then the rows tied with its last one. A read fails when its
      bound is no UUID. */
  method KeyHolderPage(table: seq<UsageRow>, scope: UsageRow -> bool, since: nat, limit: nat)
    returns (page: Result<UsagePage, Refused>)
    requires 1 <= limit <= MAX_LIMIT && CursorIds(table)
    ensures page.Err? <==>
              IdAtLeast(since + 1).None? || TailFails(FirstN(Remaining(table, scope, since), limit), limit)
    ensures page.Ok? ==>
      && page.value.rows == ApiRows(table, scope, since, limit)
      && page.value.totals == SumTotals(page.value.rows)
      && page.value.maxId == if page.value.rows == [] then None
                             else Some(RowCursor(page.value.rows[|page.value.rows| - 1]))
  {
    var from := IdAtLeast(since + 1);
    if from.None? {
      return Err(CursorOutOfRange);
    }
    var rows := Select(table, FromId(scope, from.value), limit);
    FromIdIsAfter(table, scope, since);
    ReadsAre(table, scope, since, limit, rows);
    if |rows| == limit {
      var last := rows[|rows| - 1];
      var bound := IdAtLeast(RowCursor(last) + 1);
      if bound.None? {
        return Err(CursorOutOfRange);
      }
      var tail := Select(table, UpTo(scope, last, bound.value), MAX_LIMIT);
      UpToIsTied(table, scope, last);
      rows := rows + tail;
    }
    ApiRowsFromTable(table, scope, since, limit);
    var p := Page(rows);
    page := Ok(p);
  }

  /** GET /usage of the api: the parameters are read, the caller's scope and filters bind the query. */
  method GetUsage(table: seq<UsageRow>, scope: Scope, q: Query) returns (page: Result<UsagePage, Refused>)
    requires CursorIds(table) && DistinctIds(table) && q.after.None?
    ensures page.Ok? ==>
      && IsPage(table, (r: UsageRow) => Asked(scope, q, r), LimitSent(q), page.value.rows)
      && TotalsAre(page.value.rows, page.value.totals)
      && page.value.maxId == if page.value.rows == [] then None
                             else Some(RowCursor(page.value.rows[|page.value.rows| - 1]))
    ensures page.Err? ==> !SinceFits(SinceSent(q)) || exists r :: r in table && Asked(scope, q, r) && IsLastStamp(r)
    ensures !SinceFits(SinceSent(q)) ==> page.Err?
  {
    var keep := (r: UsageRow) => InScope(scope, q, r);
    ParamsAreSent(q);
    page := KeyHolderPage(table, keep, Since(q), Limit(q));
    if page.Ok? {
      SumsByField(page.value.rows);
      ApiRowsArePage(table, keep, Since(q), Limit(q));
      SamePage(table, After(keep, Since(q)), (r: UsageRow) => Asked(scope, q, r), Limit(q), page.value.rows);
    } else {
      RefusedForCursor(table, scope, q, keep);
    }
  }

  /** No later cursor has a 48-bit time. */
  ghost predicate IsLastStamp(r: UsageRow) {
    r.usageId.ms == MS_LIMIT - 1 && r.usageId.counter == PER_MS - 1
  }

  lemma RefusedForCursor(table: seq<UsageRow>, scope: Scope, q: Query, keep: UsageRow -> bool)
    requires forall r :: keep(r) == InScope(scope, q, r)
    requires IdAtLeast(Since(q) + 1).None? || TailFails(FirstN(Remaining(table, keep, Since(q)), Limit(q)), Limit(q))
    ensures !SinceFits(SinceSent(q)) || exists r :: r in table && Asked(scope, q, r) && IsLastStamp(r)
  {
    ParamsAreSent(q);
    if IdAtLeast(Since(q) + 1).Some? {
      var rows := FirstN(Remaining(table, keep, Since(q)), Limit(q));
      var last := rows[Limit(q) - 1];
      assert last in Remaining(table, keep, Since(q));
      TailFailsAtTheEnd(last.usageId);
      assert last in table && Asked(scope, q, last) && IsLastStamp(last);
    }
  }

  /** That bound fails for exactly one stamp. */
  lemma TailFailsAtTheEnd(u: UsageId)
    requires Cursor(u) >= 0
    ensures IdAtLeast(Cursor(u) + 1).None? <==> u.ms == MS_LIMIT - 1 && u.counter == PER_MS - 1
  {
  }

  function FromId(scope: UsageRow -> bool, from: UsageId): UsageRow -> bool {
    r => scope(r) && !Less(r.usageId, from)
  }

  function UpTo(scope: UsageRow -> bool, last: UsageRow, bound: UsageId): UsageRow -> bool {
    r => scope(r) && Less(last.usageId, r.usageId) && Less(r.usageId, bound)
  }

  function After(scope: UsageRow -> bool, since: int): UsageRow -> bool {
    r => scope(r) && RowCursor(r) > since
  }

  function Tied(scope: UsageRow -> bool, last: UsageRow): UsageRow -> bool {
    r => scope(r) && Less(last.usageId, r.usageId) && RowCursor(r) == RowCursor(last)
  }

  function TiesOf(table: seq<UsageRow>, scope: UsageRow -> bool, last: UsageRow): seq<UsageRow> {
    Select(table, Tied(scope, last), MAX_LIMIT)
  }

  function ApiRows(table: seq<UsageRow>, scope: UsageRow -> bool, since: int, limit: nat): seq<UsageRow>
    requires limit >= 1
  {
    var rows := Select(table, After(scope, since), limit);
    if |rows| < limit then rows else rows + TiesOf(table, scope, rows[limit - 1])
  }

  lemma {:induction false} SameFilter(s: seq<UsageRow>, p: UsageRow -> bool, q: UsageRow -> bool)
    requires forall r :: p(r) == q(r)
    ensures Filter(s, p) == Filter(s, q)
  {
    if s != [] {
      SameFilter(s[1..], p, q);
    }
  }

  lemma FromIdIsAfter(table: seq<UsageRow>, scope: UsageRow -> bool, since: nat)
    requires IdAtLeast(since + 1).Some?
    ensures forall n :: Select(table, FromId(scope, IdAtLeast(since + 1).value), n)
                        == Select(table, After(scope, since), n) == FirstN(Remaining(table, scope, since), n)
  {
    var from := IdAtLeast(since + 1).value;
    forall r: UsageRow
      ensures FromId(scope, from)(r) == After(scope, since)(r)
    {
      IdAtLeastMeansCursor(since + 1, r.usageId);
    }
    SameFilter(table, FromId(scope, from), After(scope, since));
  }

  lemma UpToIsTied(table: seq<UsageRow>, scope: UsageRow -> bool, last: UsageRow)
    requires RowCursor(last) >= 0 && IdAtLeast(RowCursor(last) + 1).Some?
    ensures Select(table, UpTo(scope, last, IdAtLeast(RowCursor(last) + 1).value), MAX_LIMIT)
         == TiesOf(table, scope, last)
  {
    var bound := IdAtLeast(RowCursor(last) + 1).value;
    forall r: UsageRow
      ensures UpTo(scope, last, bound)(r) == Tied(scope, last)(r)
    {
      IdAtLeastMeansCursor(RowCursor(last) + 1, r.usageId);
      assert Less(last.usageId, r.usageId) ==> RowCursor(last) <= RowCursor(r);
    }
    SameFilter(table, UpTo(scope, last, bound), Tied(scope, last));
  }

  /** What the first read's rows make of the second. */
  lemma ReadsAre(table: seq<UsageRow>, scope: UsageRow -> bool, since: nat, limit: nat, rows: seq<UsageRow>)
    requires limit >= 1 && rows == Select(table, After(scope, since), limit)
    ensures |rows| < limit ==> ApiRows(table, scope, since, limit) == rows
    ensures |rows| >= limit ==>
              var last := rows[|rows| - 1];
              && |rows| == limit && RowCursor(last) > since
              && ApiRows(table, scope, since, limit) == rows + TiesOf(table, scope, last)
              && (TailFails(rows, limit) <==> IdAtLeast(RowCursor(last) + 1).None?)
  {
    if |rows| >= limit {
      assert rows[limit - 1] in SortRows(Filter(table, After(scope, since)));
    }
  }

  lemma ApiRowsFromTable(table: seq<UsageRow>, scope: UsageRow -> bool, since: int, limit: nat)
    requires CursorIds(table) && limit >= 1
    ensures CursorIds(ApiRows(table, scope, since, limit))
  {
    var rows := ApiRows(table, scope, since, limit);
    forall k | 0 <= k < |rows|
      ensures rows[k].id == RowCursor(rows[k])
    {
      assert rows[k] in table;
    }
  }

  // ---------------------------------------------------------------------------
  // The api's page is the page
  // ---------------------------------------------------------------------------

  /** Everything a reader at `since` has still to read, in order. */
  function Remaining(table: seq<UsageRow>, scope: UsageRow -> bool, since: int): seq<UsageRow> {
    SortRows(Filter(table, After(scope, since)))
  }

  lemma RemainingIs(table: seq<UsageRow>, scope: UsageRow -> bool, since: int)
    requires DistinctIds(table)
    ensures Sorted(Remaining(table, scope, since))
    ensures forall r :: r in Remaining(table, scope, since) <==> r in table && scope(r) && RowCursor(r) > since
  {
    FilterKeepsDistinct(table, After(scope, since));
    SortRowsSorts(Filter(table, After(scope, since)));
  }

  /** The rows tied with the last of the first `limit` are those up to the end of the ties. */
  lemma TailIsTies(table: seq<UsageRow>, scope: UsageRow -> bool, since: int, limit: nat)
    requires DistinctIds(table) && limit >= 1 && |Remaining(table, scope, since)| >= limit
    ensures var u := Remaining(table, scope, since);
            SortRows(Filter(table, Tied(scope, u[limit - 1]))) == u[limit..TieEnd(u, limit)]
  {
    var u := Remaining(table, scope, since);
    RemainingIs(table, scope, since);
    var last := u[limit - 1];
    assert last in u;
    FilterKeepsDistinct(table, Tied(scope, last));
    var t := Filter(table, Tied(scope, last));
    SortRowsSorts(t);
    forall r
      ensures r in t <==> r in u && Before(last, r) && RowCursor(r) == RowCursor(last)
    {
    }
    TiedRowsAre(u, limit, SortRows(t));
  }

  lemma TiedRowsAre(u: seq<UsageRow>, limit: nat, t: seq<UsageRow>)
    requires Sorted(u) && 1 <= limit <= |u| && Sorted(t)
    requires forall r :: r in t <==> r in u && Before(u[limit - 1], r) && RowCursor(r) == RowCursor(u[limit - 1])
    ensures t == u[limit..TieEnd(u, limit)]
  {
    forall r
      ensures r in t <==> r in u[limit..TieEnd(u, limit)]
    {
      TiedRow(u, limit, r);
    }
    SortedUnique(t, u[limit..TieEnd(u, limit)]);
  }

  lemma TiedRow(u: seq<UsageRow>, limit: nat, r: UsageRow)
    requires Sorted(u) && 1 <= limit <= |u|
    ensures r in u[limit..TieEnd(u, limit)]
       <==> r in u && Before(u[limit - 1], r) && RowCursor(r) == RowCursor(u[limit - 1])
  {
  }

  lemma CutPage(u: seq<UsageRow>, limit: nat, e: nat, tail: seq<UsageRow>)
    requires 1 <= limit <= e <= |u| && tail == FirstN(u[limit..e], MAX_LIMIT)
    ensures u[..limit] + tail == u[..e] <==> e - limit <= MAX_LIMIT
  {
  }

  lemma ApiRowsCut(table: seq<UsageRow>, scope: UsageRow -> bool, since: int, limit: nat)
    requires DistinctIds(table) && limit >= 1 && |Remaining(table, scope, since)| >= limit
    ensures var u := Remaining(table, scope, since);
            ApiRows(table, scope, since, limit) == u[..limit] + FirstN(u[limit..TieEnd(u, limit)], MAX_LIMIT)
  {
    var u := Remaining(table, scope, since);
    TailIsTies(table, scope, since, limit);
    assert FirstN(u, limit) == u[..limit] && u[..limit][limit - 1] == u[limit - 1];
  }

  /** The page is the first rows that remain, up to the end of the ties or of the second read. */
  lemma ApiRowsAre(table: seq<UsageRow>, scope: UsageRow -> bool, since: int, limit: nat)
    requires DistinctIds(table) && 1 <= limit <= MAX_LIMIT
    ensures var u := Remaining(table, scope, since);
            ApiRows(table, scope, since, limit) ==
              if |u| <= limit then u else u[..Min(TieEnd(u, limit), limit + MAX_LIMIT)]
  {
    var u := Remaining(table, scope, since);
    if |u| >= limit {
      ApiRowsCut(table, scope, since, limit);
      CutOfTail(u, limit, TieEnd(u, limit));
      assert |u| == limit ==> u[..limit] == u;
    }
  }

  lemma CutOfTail(u: seq<UsageRow>, limit: nat, e: nat)
    requires limit <= e <= |u|
    ensures u[..limit] + FirstN(u[limit..e], MAX_LIMIT) == u[..Min(e, limit + MAX_LIMIT)]
  {
  }

  lemma CutOfTies(u: seq<UsageRow>, limit: nat, n: nat, r: UsageRow)
    requires Sorted(u) && 1 <= limit < |u| && n == Min(TieEnd(u, limit), limit + MAX_LIMIT) && r in u
    ensures r in u[..n] || (Before(u[n - 1], r) && (RowCursor(u[n - 1]) < RowCursor(r) || n == limit + 5000))
  {
    var k := IndexOf(u, r);
    if k >= n {
      assert Before(u[n - 1], u[k]);
      if n < limit + MAX_LIMIT {
        assert n == TieEnd(u, limit) && (k > n ==> Before(u[n], u[k]));
      }
    } else {
      assert u[..n][k] == r;
    }
  }

  lemma ApiRowsArePage(table: seq<UsageRow>, scope: UsageRow -> bool, since: int, limit: nat)
    requires DistinctIds(table) && 1 <= limit <= MAX_LIMIT
    ensures IsPage(table, After(scope, since), limit, ApiRows(table, scope, since, limit))
  {
    RemainingIs(table, scope, since);
    ApiRowsAre(table, scope, since, limit);
    CutIsPage(table, After(scope, since), Remaining(table, scope, since), limit);
  }

  lemma CutIsPage(table: seq<UsageRow>, wanted: UsageRow -> bool, u: seq<UsageRow>, limit: nat)
    requires limit >= 1 && Sorted(u) && forall r :: r in u <==> r in table && wanted(r)
    ensures IsPage(table, wanted, limit,
                   if |u| <= limit then u else u[..Min(TieEnd(u, limit), limit + MAX_LIMIT)])
  {
    if |u| > limit {
      var n := Min(TieEnd(u, limit), limit + MAX_LIMIT);
      forall r | r in u
        ensures r in u[..n] || (Before(u[n - 1], r) && (RowCursor(u[n - 1]) < RowCursor(r) || n == limit + 5000))
      {
        CutOfTies(u, limit, n, r);
      }
    }
  }

  /** The api answers the same page as the specification of the proxy's, for every start and
      limit, exactly when the ties it has to add fit its second read. */
  lemma ApiPageIsThePage(table: seq<UsageRow>, scope: UsageRow -> bool, since: int, limit: nat)
    requires DistinctIds(table) && 1 <= limit <= MAX_LIMIT
    ensures var u := Remaining(table, scope, since);
            ApiRows(table, scope, since, limit) == PageOf(u, limit) <==>
              (|u| <= limit || TieEnd(u, limit) - limit <= MAX_LIMIT)
  {
    var u := Remaining(table, scope, since);
    if |u| >= limit {
      ApiRowsCut(table, scope, since, limit);
      var e := TieEnd(u, limit);
      CutPage(u, limit, e, FirstN(u[limit..e], MAX_LIMIT));
      assert |u| == limit ==> u[..e] == u;
    }
  }

  // ---------------------------------------------------------------------------
  // At most one tied row a machine
  // ---------------------------------------------------------------------------

  ghost predicate TiesFit(u: seq<UsageRow>, n: nat) {
    forall i, j :: 0 <= i <= j < |u| && RowCursor(u[i]) == RowCursor(u[j]) ==> j - i < n
  }

  lemma {:induction false} DistinctBelow(s: seq<nat>, n: nat)
    requires forall i, j :: 0 <= i < j < |s| ==> s[i] != s[j]
    requires forall i :: 0 <= i < |s| ==> s[i] < n
    ensures |s| <= n
    decreases n
  {
    if s != [] {
      var first := s[0];
      if k :| 0 <= k < |s| && s[k] == n - 1 {
        DistinctBelow(s[..k] + s[k + 1..], n - 1);
      } else {
        DistinctBelow(s, n - 1);
      }
    }
  }

  lemma {:induction false} TableIndexes(tables: seq<seq<UsageRow>>, rows: seq<UsageRow>) returns (at: seq<nat>)
    requires forall r :: r in rows ==> InSome(tables, r)
    ensures |at| == |rows| && forall k :: 0 <= k < |at| ==> at[k] < |tables| && rows[k] in tables[at[k]]
  {
    at := [];
    if rows != [] {
      assert rows[0] in rows;
      var i :| 0 <= i < |tables| && rows[0] in tables[i];
      var rest := TableIndexes(tables, rows[1..]);
      at := [i] + rest;
      assert forall k :: 1 <= k < |at| ==> rows[k] == rows[1..][k - 1];
    }
  }

  lemma StrictTableRows(table: seq<UsageRow>, r: UsageRow, q: UsageRow)
    requires StrictCursors(table) && r in table && q in table && RowCursor(r) == RowCursor(q)
    ensures r == q
  {
  }

  /** Since no machine repeats a cursor, a group of equal cursors has at most one row a machine. */
  lemma TiesBoundedByMachines(tables: seq<seq<UsageRow>>, u: seq<UsageRow>)
    requires Sorted(u) && forall r :: r in u ==> InSome(tables, r)
    requires forall i :: 0 <= i < |tables| ==> StrictCursors(tables[i])
    ensures TiesFit(u, |tables|)
  {
    forall i, j | 0 <= i <= j < |u| && RowCursor(u[i]) == RowCursor(u[j])
      ensures j - i < |tables|
    {
      var rows := u[i..j + 1];
      assert forall r :: r in rows ==> r in u;
      var at := TableIndexes(tables, rows);
      forall a, b | 0 <= a < b < |at|
        ensures at[a] != at[b]
      {
        assert rows[a] == u[i + a] && rows[b] == u[i + b] && Before(u[i + a], u[i + b]);
        assert a > 0 ==> Before(u[i], u[i + a]);
        assert i + b < j ==> Before(u[i + b], u[j]);
        if at[a] == at[b] {
          StrictTableRows(tables[at[a]], rows[a], rows[b]);
        }
      }
      DistinctBelow(at, |tables|);
    }
  }

  // ---------------------------------------------------------------------------
  // Two readers, one answer
  // ---------------------------------------------------------------------------

  lemma TieEndFits(u: seq<UsageRow>, limit: nat, n: nat)
    requires TiesFit(u, n) && 1 <= limit <= |u|
    ensures TieEnd(u, limit) - limit < n
  {
    var e := TieEnd(u, limit);
    assert e > limit ==> RowCursor(u[e - 1]) == RowCursor(u[limit - 1]);
    assert RowCursor(u[limit - 1]) == RowCursor(u[e - 1]);
  }

  function Shares(tables: seq<seq<UsageRow>>, scope: UsageRow -> bool, since: int): seq<seq<UsageRow>> {
    seq(|tables|, i requires 0 <= i < |tables| => Filter(tables[i], After(scope, since)))
  }

  lemma SharesHold(tables: seq<seq<UsageRow>>, scope: UsageRow -> bool, since: int, r: UsageRow)
    ensures InSome(Shares(tables, scope, since), r) <==> InSome(tables, r) && scope(r) && RowCursor(r) > since
  {
    var shares := Shares(tables, scope, since);
    if i :| 0 <= i < |tables| && r in tables[i] {
      assert After(scope, since)(r) ==> r in shares[i];
    }
    if i :| 0 <= i < |shares| && r in shares[i] {
      assert r in tables[i];
    }
  }

  /** On the same rows, fully ingested and with every floor above them, the proxy's merged page
      and the api's page are the same rows in the same order, for every start, limit and scope,
      with up to 5000 machines. */
  lemma TwoReadersAgree(tables: seq<seq<UsageRow>>, table: seq<UsageRow>, answers: seq<LocalAnswer>,
                        scope: UsageRow -> bool, since: int, limit: nat)
    requires 1 <= |tables| <= MAX_LIMIT && 1 <= limit <= MAX_LIMIT && DistinctIds(table) && IdsNameRows(tables)
    requires forall i :: 0 <= i < |tables| ==> StrictCursors(tables[i])
    requires forall r :: r in table <==> InSome(tables, r)
    requires AnswersOf(answers, Shares(tables, scope, since), limit)
    requires forall r :: r in table ==> RowCursor(r) < MinFloor(answers)
    ensures Merge(answers, limit) == ApiRows(table, scope, since, limit)
  {
    var u, shares := Remaining(table, scope, since), Shares(tables, scope, since);
    RemainingIs(table, scope, since);
    forall r
      ensures InSome(shares, r) <==> InSome(tables, r) && scope(r) && RowCursor(r) > since
    {
      SharesHold(tables, scope, since, r);
    }
    forall i | 0 <= i < |shares|
      ensures StrictCursors(shares[i])
    {
      FilterKeepsStrict(tables[i], After(scope, since));
    }
    TruncatedMergeIsExact(answers, shares, limit, u);
    TiesBoundedByMachines(tables, u);
    if |u| > limit {
      TieEndFits(u, limit, |tables|);
    }
    ApiPageIsThePage(table, scope, since, limit);
  }

  // ---------------------------------------------------------------------------
  // Paging a fixed table
  // ---------------------------------------------------------------------------

  /** What a client collects that feeds each page's last cursor back until a page is empty. */
  function ReadAll(table: seq<UsageRow>, scope: UsageRow -> bool, since: int, limit: nat, fuel: nat): seq<UsageRow>
    requires limit >= 1
    decreases fuel
  {
    var page := ApiRows(table, scope, since, limit);
    if page == [] || fuel == 0 then []
    else page + ReadAll(table, scope, RowCursor(page[|page| - 1]), limit, fuel - 1)
  }

  lemma PageAndRest(table: seq<UsageRow>, scope: UsageRow -> bool, since: int, limit: nat)
    requires DistinctIds(table) && limit >= 1 && Remaining(table, scope, since) != []
    ensures var u := Remaining(table, scope, since);
            var p := PageOf(u, limit);
            && p != [] && u == p + Remaining(table, scope, RowCursor(p[|p| - 1]))
  {
    var u := Remaining(table, scope, since);
    RemainingIs(table, scope, since);
    PageOfUnion(u, limit);
    var p := PageOf(u, limit);
    var c := RowCursor(p[|p| - 1]);
    assert p[|p| - 1] in u;
    var rest := Remaining(table, scope, c);
    RemainingIs(table, scope, c);
    SortedJoin(p, rest, c);
    SortedUnique(p + rest, u);
  }

  lemma TiesFitRest(u: seq<UsageRow>, p: seq<UsageRow>, rest: seq<UsageRow>, n: nat)
    requires u == p + rest && TiesFit(u, n)
    ensures TiesFit(rest, n)
  {
    forall i, j | 0 <= i <= j < |rest| && RowCursor(rest[i]) == RowCursor(rest[j])
      ensures j - i < n
    {
      assert rest[i] == u[|p| + i] && rest[j] == u[|p| + j];
    }
  }

  lemma FittingPage(table: seq<UsageRow>, scope: UsageRow -> bool, since: int, limit: nat)
    requires DistinctIds(table) && 1 <= limit <= MAX_LIMIT
    requires TiesFit(Remaining(table, scope, since), MAX_LIMIT)
    ensures ApiRows(table, scope, since, limit) == PageOf(Remaining(table, scope, since), limit)
  {
    var u := Remaining(table, scope, since);
    ApiPageIsThePage(table, scope, since, limit);
    if |u| > limit {
      TieEndFits(u, limit, MAX_LIMIT);
    }
  }

  lemma NextPage(table: seq<UsageRow>, scope: UsageRow -> bool, since: int, limit: nat)
    returns (page: seq<UsageRow>, next: int)
    requires DistinctIds(table) && 1 <= limit <= MAX_LIMIT
    requires TiesFit(Remaining(table, scope, since), MAX_LIMIT)
    ensures page == ApiRows(table, scope, since, limit)
    ensures page == [] <==> Remaining(table, scope, since) == []
    ensures page != [] ==>
      && next == RowCursor(page[|page| - 1])
      && Remaining(table, scope, since) == page + Remaining(table, scope, next)
      && TiesFit(Remaining(table, scope, next), MAX_LIMIT)
  {
    var u := Remaining(table, scope, since);
    FittingPage(table, scope, since, limit);
    page := PageOf(u, limit);
    next := 0;
    if u != [] {
      PageAndRest(table, scope, since, limit);
      next := RowCursor(page[|page| - 1]);
      TiesFitRest(u, page, Remaining(table, scope, next), MAX_LIMIT);
    }
  }

  lemma ReadAllStep(table: seq<UsageRow>, scope: UsageRow -> bool, since: int, limit: nat, fuel: nat,
                    page: seq<UsageRow>)
    requires limit >= 1 && page == ApiRows(table, scope, since, limit)
    ensures page == [] || fuel == 0 ==> ReadAll(table, scope, since, limit, fuel) == []
    ensures page != [] && fuel > 0 ==>
      ReadAll(table, scope, since, limit, fuel)
      == page + ReadAll(table, scope, RowCursor(page[|page| - 1]), limit, fuel - 1)
  {
  }

  /** One turn of the client's loop: reading on from the next cursor reads the rest. */
  lemma ReadingTurn(table: seq<UsageRow>, scope: UsageRow -> bool, since: int, limit: nat, fuel: nat)
    returns (last: bool, next: int)
    requires DistinctIds(table) && 1 <= limit <= MAX_LIMIT && fuel >= |Remaining(table, scope, since)|
    requires TiesFit(Remaining(table, scope, since), MAX_LIMIT)
    ensures last ==> ReadAll(table, scope, since, limit, fuel) == Remaining(table, scope, since)
    ensures !last ==> fuel > 0 && fuel - 1 >= |Remaining(table, scope, next)|
    ensures !last ==> TiesFit(Remaining(table, scope, next), MAX_LIMIT)
    ensures !last && ReadAll(table, scope, next, limit, fuel - 1) == Remaining(table, scope, next) ==>
              ReadAll(table, scope, since, limit, fuel) == Remaining(table, scope, since)
  {
    var page;
    page, next := NextPage(table, scope, since, limit);
    last := page == [];
    ReadAllStep(table, scope, since, limit, fuel, page);
  }

  /** Over a table that does not change, paging enumerates everything after the start exactly
      once, in order, and needs at most as many nonempty pages as there are rows. */
  lemma {:induction false} PagingEnumerates(table: seq<UsageRow>, scope: UsageRow -> bool, since: int, limit: nat,
                                            fuel: nat)
    requires DistinctIds(table) && 1 <= limit <= MAX_LIMIT && fuel >= |Remaining(table, scope, since)|
    requires TiesFit(Remaining(table, scope, since), MAX_LIMIT)
    ensures ReadAll(table, scope, since, limit, fuel) == Remaining(table, scope, since)
    decreases fuel
  {
    var last, next := ReadingTurn(table, scope, since, limit, fuel);
    if !last {
      PagingEnumerates(table, scope, next, limit, fuel - 1);
    }
  }
}
