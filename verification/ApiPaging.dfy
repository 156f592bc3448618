/** Reading the api's usage page by page while rows are ingested in between. */
module ApiPaging {
  import opened Wrappers
  import opened UsageIds
  import opened Rows
  import opened MergedUsage
  import opened ApiUsage

  /** `since` is the last cursor handed out, `got` the rows handed out so far. */
  datatype State = State(table: seq<UsageRow>, since: int, got: seq<UsageRow>)

  datatype Action = Ingest(rows: seq<UsageRow>) | Read(limit: nat)

  /** A caller's scope and the cursor it starts from. */
  datatype Caller = Caller(scope: UsageRow -> bool, start: int)

  /** A page's rows reach the log in one transaction; a read takes the page after `since`. Ties fit
      the second read: with at most 5000 machines they do. */
  ghost predicate Does(s: State, t: State, who: Caller, a: Action) {
    match a
    case Ingest(rows) => DistinctIds(s.table + rows) && t == s.(table := s.table + rows)
    case Read(limit) =>
      && 1 <= limit <= MAX_LIMIT && TiesFit(Remaining(s.table, who.scope, s.since), MAX_LIMIT)
      && var page := ApiRows(s.table, who.scope, s.since, limit);
      && t == s.(got := s.got + page, since := if page == [] then s.since else RowCursor(page[|page| - 1]))
  }

  ghost predicate IsRun(run: seq<State>, acts: seq<Action>, who: Caller) {
    && |run| == |acts| + 1 && run[0] == State([], who.start, [])
    && forall i, j :: 0 <= i < |acts| && j == i + 1 ==> Does(run[i], run[j], who, acts[i])
  }

  /** One of the first `n` steps ingests the row, after a cursor at or past it was handed out. */
  ghost predicate CameLate(run: seq<State>, acts: seq<Action>, n: nat, r: UsageRow)
    requires |run| == |acts| + 1 && n <= |acts|
  {
    exists i :: 0 <= i < n && acts[i].Ingest? && r in acts[i].rows && RowCursor(r) <= run[i].since
  }

  ghost predicate IsGot(run: seq<State>, acts: seq<Action>, who: Caller, n: nat, r: UsageRow)
    requires |run| == |acts| + 1 && n <= |acts|
  {
    r in run[n].table && who.scope(r) && who.start < RowCursor(r) <= run[n].since && !CameLate(run, acts, n, r)
  }

  ghost predicate Inv(run: seq<State>, acts: seq<Action>, who: Caller, n: nat)
    requires |run| == |acts| + 1 && n <= |acts|
  {
    && DistinctIds(run[n].table) && who.start <= run[n].since && Sorted(run[n].got)
    && (forall r :: r in run[n].got <==> IsGot(run, acts, who, n, r))
    && (forall r :: CameLate(run, acts, n, r) ==> r in run[n].table && RowCursor(r) <= run[n].since)
  }

  lemma LateStep(run: seq<State>, acts: seq<Action>, n: nat, r: UsageRow)
    requires |run| == |acts| + 1 && n < |acts|
    ensures CameLate(run, acts, n + 1, r) <==>
              CameLate(run, acts, n, r) || (acts[n].Ingest? && r in acts[n].rows && RowCursor(r) <= run[n].since)
  {
  }

  lemma NewIsNotOld(table: seq<UsageRow>, rows: seq<UsageRow>, r: UsageRow)
    requires DistinctIds(table + rows) && r in rows
    ensures r !in table && DistinctIds(table)
  {
    var both := table + rows;
    var k := IndexOf(rows, r);
    assert both[|table| + k] == r;
    forall i | 0 <= i < |table|
      ensures table[i] != r
    {
      assert both[i] == table[i];
    }
    forall i, j | 0 <= i < j < |table|
      ensures table[i].usageId != table[j].usageId
    {
      assert both[i] == table[i] && both[j] == table[j];
    }
  }

  lemma IngestKeepsGot(run: seq<State>, acts: seq<Action>, who: Caller, n: nat, r: UsageRow)
    requires n < |acts| == |run| - 1 && Inv(run, acts, who, n) && acts[n].Ingest?
    requires Does(run[n], run[n + 1], who, acts[n])
    ensures r in run[n + 1].got <==> IsGot(run, acts, who, n + 1, r)
    ensures CameLate(run, acts, n + 1, r) ==> r in run[n + 1].table && RowCursor(r) <= run[n + 1].since
  {
    LateStep(run, acts, n, r);
    if r in acts[n].rows {
      NewIsNotOld(run[n].table, acts[n].rows, r);
    }
  }

  lemma PageHolds(table: seq<UsageRow>, who: Caller, since: int, limit: nat, r: UsageRow)
    requires DistinctIds(table) && 1 <= limit <= MAX_LIMIT && TiesFit(Remaining(table, who.scope, since), MAX_LIMIT)
    ensures var page := ApiRows(table, who.scope, since, limit);
            && Sorted(page)
            && (page != [] ==> RowCursor(page[|page| - 1]) > since)
            && (r in page <==>
                  page != [] && r in table && who.scope(r) && since < RowCursor(r) <= RowCursor(page[|page| - 1]))
  {
    var u := Remaining(table, who.scope, since);
    RemainingIs(table, who.scope, since);
    FittingPage(table, who.scope, since, limit);
    PageOfUnion(u, limit);
  }

  /** A row in scope after `since` is on the page, unless the page is full and ends before it. */
  lemma PageOrPast(table: seq<UsageRow>, who: Caller, since: int, limit: nat, r: UsageRow)
    requires DistinctIds(table) && 1 <= limit <= MAX_LIMIT && TiesFit(Remaining(table, who.scope, since), MAX_LIMIT)
    requires r in table && who.scope(r) && RowCursor(r) > since
    ensures var page := ApiRows(table, who.scope, since, limit);
            page != [] && (r in page || (|page| >= limit && RowCursor(r) > RowCursor(page[|page| - 1])))
  {
    var u := Remaining(table, who.scope, since);
    RemainingIs(table, who.scope, since);
    FittingPage(table, who.scope, since, limit);
    PageIsShortestCut(u, limit, |u|);
    PageHolds(table, who, since, limit, r);
    assert r in u;
  }

  lemma ReadAnswers(s: State, t: State, who: Caller, limit: nat, r: UsageRow)
    requires DistinctIds(s.table) && Does(s, t, who, Read(limit))
    requires r in s.table && who.scope(r) && RowCursor(r) > s.since
    ensures r in t.got || (|t.got| >= |s.got| + limit && RowCursor(r) > t.since)
  {
    PageOrPast(s.table, who, s.since, limit, r);
  }

  lemma ReadKeepsGot(run: seq<State>, acts: seq<Action>, who: Caller, n: nat, r: UsageRow)
    requires n < |acts| == |run| - 1 && Inv(run, acts, who, n) && acts[n].Read?
    requires Does(run[n], run[n + 1], who, acts[n])
    ensures r in run[n + 1].got <==> IsGot(run, acts, who, n + 1, r)
    ensures CameLate(run, acts, n + 1, r) ==> r in run[n + 1].table && RowCursor(r) <= run[n + 1].since
    ensures run[n].since <= run[n + 1].since
  {
    LateStep(run, acts, n, r);
    PageHolds(run[n].table, who, run[n].since, acts[n].limit, r);
    assert r in run[n].got <==> IsGot(run, acts, who, n, r);
  }

  lemma ReadKeepsOrder(run: seq<State>, acts: seq<Action>, who: Caller, n: nat)
    requires n < |acts| == |run| - 1 && Inv(run, acts, who, n) && acts[n].Read?
    requires Does(run[n], run[n + 1], who, acts[n])
    ensures Sorted(run[n + 1].got)
  {
    var s := run[n];
    var page := ApiRows(s.table, who.scope, s.since, acts[n].limit);
    forall r
      ensures r in page ==> RowCursor(r) > s.since
      ensures Sorted(page)
    {
      PageHolds(s.table, who, s.since, acts[n].limit, r);
    }
    assert forall r :: r in s.got ==> IsGot(run, acts, who, n, r);
    SortedJoin(s.got, page, s.since);
  }

  lemma StepKeepsInv(run: seq<State>, acts: seq<Action>, who: Caller, n: nat)
    requires n < |acts| == |run| - 1 && Inv(run, acts, who, n) && Does(run[n], run[n + 1], who, acts[n])
    ensures Inv(run, acts, who, n + 1)
  {
    if acts[n].Read? {
      forall r
        ensures r in run[n + 1].got <==> IsGot(run, acts, who, n + 1, r)
        ensures CameLate(run, acts, n + 1, r) ==> r in run[n + 1].table && RowCursor(r) <= run[n + 1].since
        ensures run[n].since <= run[n + 1].since
      {
        ReadKeepsGot(run, acts, who, n, r);
      }
      ReadKeepsOrder(run, acts, who, n);
    } else {
      forall r
        ensures r in run[n + 1].got <==> IsGot(run, acts, who, n + 1, r)
        ensures CameLate(run, acts, n + 1, r) ==> r in run[n + 1].table && RowCursor(r) <= run[n + 1].since
      {
        IngestKeepsGot(run, acts, who, n, r);
      }
    }
  }

  lemma {:induction false} RunInv(run: seq<State>, acts: seq<Action>, who: Caller, n: nat)
    requires IsRun(run, acts, who) && n < |run|
    ensures Inv(run, acts, who, n)
  {
    if n > 0 {
      RunInv(run, acts, who, n - 1);
      assert Does(run[n - 1], run[n], who, acts[n - 1]);
      StepKeepsInv(run, acts, who, n - 1);
    }
  }

  /** Over any run of ingests and reads, the pages handed out so far are strictly ordered, repeat
      nothing, and are exactly the in-scope rows after the start up to the cursor, but for those
      ingested after a cursor at or past them had been handed out. */
  lemma PagesOfAGrowingTable(run: seq<State>, acts: seq<Action>, who: Caller, n: nat)
    requires IsRun(run, acts, who) && n < |run|
    ensures Sorted(run[n].got)
    ensures forall r :: r in run[n].got <==> IsGot(run, acts, who, n, r)
  {
    RunInv(run, acts, who, n);
  }

  /** So reading is exactly-once up to the cursor if and only if no in-scope row came late. */
  lemma ExactlyOnceIffNoneCameLate(run: seq<State>, acts: seq<Action>, who: Caller, n: nat)
    requires IsRun(run, acts, who) && n < |run|
    ensures (forall r :: r in run[n].got <==>
               r in run[n].table && who.scope(r) && who.start < RowCursor(r) <= run[n].since) <==>
            !exists r :: CameLate(run, acts, n, r) && who.scope(r) && who.start < RowCursor(r)
  {
    RunInv(run, acts, who, n);
    if r :| CameLate(run, acts, n, r) && who.scope(r) && who.start < RowCursor(r) {
      assert r in run[n].table && !(r in run[n].got);
    }
  }

  function RowAt(ms: nat): UsageRow
    requires ms < MS_LIMIT
  {
    UsageRow(0, Uuid7(ms, 0, 0), "m", "k", "", None, None, "", 0, 0, 0, 0, None)
  }

  lemma OneRowPage(r: UsageRow, who: Caller, since: int)
    requires who.scope(r) && RowCursor(r) > since
    ensures DistinctIds([r]) && TiesFit(Remaining([r], who.scope, since), MAX_LIMIT)
    ensures ApiRows([r], who.scope, since, 1) == [r]
  {
    RemainingIs([r], who.scope, since);
    PageOrPast([r], who, since, 1, r);
    var page := ApiRows([r], who.scope, since, 1);
    forall q
      ensures Sorted(page) && (q in page <==> q in [r])
    {
      PageHolds([r], who, since, 1, q);
    }
    SortedUnique(page, [r]);
  }

  lemma OneRowRead(r: UsageRow, who: Caller)
    requires who.scope(r) && RowCursor(r) > who.start
    ensures Does(State([r], who.start, []), State([r], RowCursor(r), [r]), who, Read(1))
  {
    OneRowPage(r, who, who.start);
    assert [] + [r] == [r];
  }

  lemma IngestOne(s: State, r: UsageRow, who: Caller)
    requires DistinctIds(s.table) && forall q :: q in s.table ==> q.usageId != r.usageId
    ensures Does(s, s.(table := s.table + [r]), who, Ingest([r]))
  {
  }

  /** The steps of such a run: one row is ingested and read, then one at or below its cursor comes. */
  lemma LateSteps(first: UsageRow, r: UsageRow, who: Caller) returns (run: seq<State>)
    requires who.scope(first) && RowCursor(first) > who.start && r.usageId != first.usageId
    ensures |run| == 4 && run[0] == State([], who.start, []) && run[2].since == RowCursor(first)
    ensures Does(run[0], run[1], who, Ingest([first])) && Does(run[1], run[2], who, Read(1))
    ensures Does(run[2], run[3], who, Ingest([r]))
  {
    var s0, s2 := State([], who.start, []), State([first], RowCursor(first), [first]);
    IngestOne(s0, first, who);
    OneRowRead(first, who);
    IngestOne(s2, r, who);
    assert s0.table + [first] == [first];
    run := [s0, State([first], who.start, []), s2, s2.(table := s2.table + [r])];
  }

  /** A run in which a row is ingested behind the cursor already handed out. */
  lemma RowCanComeLate(who: Caller) returns (run: seq<State>, acts: seq<Action>, r: UsageRow)
    requires who == Caller(_ => true, 0)
    ensures IsRun(run, acts, who) && CameLate(run, acts, |acts|, r) && who.scope(r) && who.start < RowCursor(r)
  {
    var first := RowAt(EPOCH_MS + 2);
    r := RowAt(EPOCH_MS + 1);
    run := LateSteps(first, r, who);
    acts := [Ingest([first]), Read(1), Ingest([r])];
    assert acts[2].Ingest? && r in acts[2].rows && RowCursor(r) <= run[2].since;
  }
}
