/** A key holder's usage read: one machine's share, and the merge of every machine's share. */
module MergedUsage {
  import opened Wrappers
  import opened UsageIds
  import opened Rows
  import opened Ledger
  import opened ReadPromises

  const MAX_LIMIT := 5000

  /** A numeric parameter, or the fallback when it is absent or 0. */
  function IntParam(v: Option<int>, fallback: int): int {
    if v.None? || v.value == 0 then fallback else v.value
  }

  function Since(q: Query): nat {
    Max(0, IntParam(q.since, 0))
  }

  function Limit(q: Query): (n: nat)
    ensures 1 <= n <= MAX_LIMIT
  {
    Min(MAX_LIMIT, Max(1, IntParam(q.limit, MAX_LIMIT)))
  }

  /** The rows of the caller's scope that the filters keep, wherever the page starts. */
  predicate InScope(scope: Scope, q: Query, r: UsageRow) {
    && (match scope case Tree(root) => r.rootKeyId == Some(root) case Single(key) => r.keyId == key)
    && (q.after.Some? ==> LexLess(q.after.value, Print(r.usageId)))
    && (q.keyId.Some? ==> r.keyId == q.keyId.value)
    && (q.jti.Some? ==> r.keyId == q.jti.value)
    && (q.name.Some? ==> r.name == q.name.value)
  }

  /** The WHERE clause of a page: the scope, and an id at or above the bound for since + 1. */
  predicate Wanted(scope: Scope, q: Query, r: UsageRow) {
    !LexLess(Print(r.usageId), UsageIdAtLeast(Since(q) + 1)) && InScope(scope, q, r)
  }

  lemma ParamsAreSent(q: Query)
    ensures Since(q) == SinceSent(q) && Limit(q) == LimitSent(q)
  {
  }

  /** The clause keeps exactly the rows that are the caller's, pass every filter given, and lie past
      `since`. */
  lemma WantedIsAfterSince(scope: Scope, q: Query, r: UsageRow)
    requires SinceFits(SinceSent(q))
    ensures Wanted(scope, q, r) <==> Asked(scope, q, r)
  {
    ParamsAreSent(q);
    AtLeastInRange(r.usageId, Since(q) + 1);
  }

  function Picks(scope: Scope, q: Query): UsageRow -> bool {
    r => Wanted(scope, q, r)
  }

  function WithCursors(s: seq<UsageRow>): (t: seq<UsageRow>)
    ensures |t| == |s| && forall i :: 0 <= i < |s| ==> t[i] == s[i].(id := RowCursor(s[i]))
  {
    seq(|s|, i requires 0 <= i < |s| => s[i].(id := RowCursor(s[i])))
  }

  lemma StampedIsSorted(rows: seq<UsageRow>)
    requires forall i, j :: 0 <= i < j < |rows| ==> Stamp(rows[i].usageId) < Stamp(rows[j].usageId)
    ensures Sorted(rows)
  {
  }

  lemma FirstOrPast(f: seq<UsageRow>, n: nat, r: UsageRow)
    requires Sorted(f) && r in f && n >= 1
    ensures r in FirstN(f, n) || (|FirstN(f, n)| == n && Before(FirstN(f, n)[n - 1], r))
  {
  }

  lemma CursorsKeepOrder(rows: seq<UsageRow>)
    requires Sorted(rows)
    ensures Sorted(WithCursors(rows))
  {
  }

  lemma WithCursorsHas(rows: seq<UsageRow>, r: UsageRow)
    requires r in rows
    ensures r.(id := RowCursor(r)) in WithCursors(rows)
  {
    var k := IndexOf(rows, r);
    assert WithCursors(rows)[k] == r.(id := RowCursor(r));
  }

  lemma PickedIsFromStore(stored: seq<UsageRow>, scope: Scope, q: Query, r: UsageRow)
    requires SinceFits(SinceSent(q)) && r in Filter(stored, Picks(scope, q))
    ensures FromStore(stored, scope, q, r.(id := RowCursor(r)))
  {
    WantedIsAfterSince(scope, q, r);
  }

  lemma AskedIsPicked(stored: seq<UsageRow>, scope: Scope, q: Query, r: UsageRow)
    requires SinceFits(SinceSent(q)) && Sorted(stored) && r in stored && Asked(scope, q, r)
    ensures var rows := FirstN(Filter(stored, Picks(scope, q)), LimitSent(q));
            r in rows || (|rows| == LimitSent(q) && Before(rows[|rows| - 1], r))
  {
    WantedIsAfterSince(scope, q, r);
    FilterKeepsSorted(stored, Picks(scope, q));
    FirstOrPast(Filter(stored, Picks(scope, q)), LimitSent(q), r);
  }

  ghost predicate LeavesNoneOut(stored: seq<UsageRow>, scope: Scope, q: Query, rows: seq<UsageRow>) {
    forall r :: r in stored && Asked(scope, q, r) ==>
      r in rows || (|rows| == LimitSent(q) && Before(rows[|rows| - 1], r))
  }

  lemma RowsAreShare(stored: seq<UsageRow>, scope: Scope, q: Query, rows: seq<UsageRow>)
    requires |rows| <= LimitSent(q) && Sorted(rows) && LeavesNoneOut(stored, scope, q, rows)
    requires forall r :: r in rows ==> FromStore(stored, scope, q, r.(id := RowCursor(r)))
    ensures IsShare(stored, scope, q, WithCursors(rows))
  {
    CursorsKeepOrder(rows);
    forall r | r in stored && Asked(scope, q, r)
      ensures r.(id := RowCursor(r)) in WithCursors(rows) || (|rows| == LimitSent(q) && Before(rows[|rows| - 1], r))
    {
      if r in rows {
        WithCursorsHas(rows, r);
      }
    }
  }

  /** The share is what was asked for, and leaves nothing out before its end. */
  lemma ShareIsAsked(stored: seq<UsageRow>, scope: Scope, q: Query, rows: seq<UsageRow>)
    requires Sorted(stored) && SinceFits(SinceSent(q))
    requires rows == FirstN(Filter(stored, Picks(scope, q)), Limit(q))
    ensures IsShare(stored, scope, q, WithCursors(rows))
  {
    ParamsAreSent(q);
    FilterKeepsSorted(stored, Picks(scope, q));
    forall r | r in rows
      ensures FromStore(stored, scope, q, r.(id := RowCursor(r)))
    {
      PickedIsFromStore(stored, scope, q, r);
    }
    NothingLeftOut(stored, scope, q);
    RowsAreShare(stored, scope, q, rows);
  }

  lemma NothingLeftOut(stored: seq<UsageRow>, scope: Scope, q: Query)
    requires Sorted(stored) && SinceFits(SinceSent(q))
    ensures LeavesNoneOut(stored, scope, q, FirstN(Filter(stored, Picks(scope, q)), LimitSent(q)))
  {
    forall r | r in stored && Asked(scope, q, r)
      ensures var rows := FirstN(Filter(stored, Picks(scope, q)), LimitSent(q));
              r in rows || (|rows| == LimitSent(q) && Before(rows[|rows| - 1], r))
    {
      AskedIsPicked(stored, scope, q, r);
    }
  }

  /** This machine's share. The floor is taken first, then the rows are read and each id is
      overwritten with the row's cursor. */
  method LocalPage(ledger: UsageLedger, scope: Scope, q: Query, now: int) returns (answer: LocalAnswer)
    requires ledger.Valid()
    modifies ledger`lastMs, ledger`seq12
    ensures ledger.Valid() && ledger.State() == FloorClock(old(ledger.State()), now)
    ensures answer.floor == ledger.State().Next() - EPOCH_MS * PER_MS
    ensures answer.rows == WithCursors(FirstN(Filter(ledger.rows, Picks(scope, q)), Limit(q)))
    ensures SinceFits(SinceSent(q)) ==> IsShare(ledger.rows, scope, q, answer.rows)
  {
    var fms, fseq := ledger.UsageFloor(now);
    var floor := (fms - EPOCH_MS) * PER_MS + fseq;
    FilterKeepsSorted(ledger.rows, Picks(scope, q));
    SortedIsSorted(Filter(ledger.rows, Picks(scope, q)));
    var selected := FirstN(SortRows(Filter(ledger.rows, Picks(scope, q))), Limit(q));
    var rows := selected;
    var i := 0;
    while i < |rows|
      invariant 0 <= i <= |rows| == |selected|
      invariant forall k :: 0 <= k < i ==> rows[k] == selected[k].(id := RowCursor(selected[k]))
      invariant forall k :: i <= k < |rows| ==> rows[k] == selected[k]
    {
      rows := rows[i := rows[i].(id := RowCursor(rows[i]))];
      i := i + 1;
    }
    assert rows == WithCursors(selected);
    StampedIsSorted(ledger.rows);
    if SinceFits(SinceSent(q)) {
      ShareIsAsked(ledger.rows, scope, q, selected);
    }
    answer := LocalAnswer(rows, floor);
  }

  // ---------------------------------------------------------------------------
  // Totals of a page
  // ---------------------------------------------------------------------------

  function Plus(a: Totals, b: Totals): Totals {
    Totals(a.requests + b.requests, a.input + b.input, a.output + b.output,
           a.cacheRead + b.cacheRead, a.cacheWrite + b.cacheWrite, a.costUsd + b.costUsd)
  }

  const ZERO := Totals(0, 0, 0, 0, 0, 0)

  function RowTotals(r: UsageRow): Totals {
    Totals(1, r.inputTokens, r.outputTokens, r.cacheReadTokens, r.cacheWriteTokens, r.costUsd.GetOr(0))
  }

  function SumTotals(rows: seq<UsageRow>): Totals {
    if rows == [] then ZERO else Plus(SumTotals(rows[..|rows| - 1]), RowTotals(rows[|rows| - 1]))
  }

  lemma PlusIsAssociative(a: Totals, b: Totals, c: Totals)
    ensures Plus(Plus(a, b), c) == Plus(a, Plus(b, c))
  {
  }

  /** Reading in pages loses no total: the totals of two pages add up to the totals of both. */
  lemma {:induction false} PageTotalsAdd(a: seq<UsageRow>, b: seq<UsageRow>)
    ensures SumTotals(a + b) == Plus(SumTotals(a), SumTotals(b))
  {
    if b == [] {
      assert a + b == a;
    } else {
      var front, last := b[..|b| - 1], b[|b| - 1];
      var s := a + b;
      assert s[..|s| - 1] == a + front && s[|s| - 1] == last;
      PageTotalsAdd(a, front);
      assert SumTotals(s) == Plus(Plus(SumTotals(a), SumTotals(front)), RowTotals(last));
      PlusIsAssociative(SumTotals(a), SumTotals(front), RowTotals(last));
    }
  }

  /** Each total is the sum of its own field. */
  lemma {:induction false} SumsByField(rows: seq<UsageRow>)
    ensures TotalsAre(rows, SumTotals(rows))
  {
    if rows != [] {
      SumsByField(rows[..|rows| - 1]);
    }
  }

  method Page(rows: seq<UsageRow>) returns (p: UsagePage)
    ensures p.rows == rows && p.totals == SumTotals(rows) && TotalsAre(rows, p.totals)
    ensures p.maxId == if rows == [] then None else Some(rows[|rows| - 1].id)
  {
    var t := ZERO;
    var i := 0;
    while i < |rows|
      invariant 0 <= i <= |rows| && t == SumTotals(rows[..i])
    {
      assert rows[..i + 1][..i] == rows[..i];
      t := Plus(t, RowTotals(rows[i]));
      i := i + 1;
    }
    assert rows[..|rows|] == rows;
    SumsByField(rows);
    p := UsagePage(rows, if |rows| > 0 then Some(rows[|rows| - 1].id) else None, t);
  }

  // ---------------------------------------------------------------------------
  // The merge
  // ---------------------------------------------------------------------------

  predicate HasId(rows: seq<UsageRow>, u: UsageId) {
    exists i :: 0 <= i < |rows| && rows[i].usageId == u
  }

  /** The rows below the floor in the order they were reported, each usage_id once. */
  function Kept(rows: seq<UsageRow>, floor: int): seq<UsageRow> {
    if rows == [] then [] else
      KeepOne(Kept(rows[..|rows| - 1], floor), rows[|rows| - 1], floor)
  }

  function KeepOne(kept: seq<UsageRow>, r: UsageRow, floor: int): seq<UsageRow> {
    if RowCursor(r) < floor && !HasId(kept, r.usageId) then kept + [r] else kept
  }

  lemma {:induction false} KeptIsDistinct(rows: seq<UsageRow>, floor: int)
    ensures DistinctIds(Kept(rows, floor))
  {
    if rows != [] {
      KeptIsDistinct(rows[..|rows| - 1], floor);
    }
  }

  lemma {:induction false} KeptIsBelow(rows: seq<UsageRow>, floor: int, r: UsageRow)
    requires r in Kept(rows, floor)
    ensures r in rows && RowCursor(r) < floor
  {
    if r in Kept(rows[..|rows| - 1], floor) {
      KeptIsBelow(rows[..|rows| - 1], floor, r);
    }
  }

  lemma {:induction false} KeptHasEveryId(rows: seq<UsageRow>, floor: int, r: UsageRow)
    requires r in rows && RowCursor(r) < floor
    ensures HasId(Kept(rows, floor), r.usageId)
  {
    var front, last := rows[..|rows| - 1], rows[|rows| - 1];
    var k := Kept(front, floor);
    assert rows == front + [last];
    if r in front {
      KeptHasEveryId(front, floor, r);
      var i :| 0 <= i < |k| && k[i].usageId == r.usageId;
      assert Kept(rows, floor)[i].usageId == r.usageId;
    } else if !HasId(k, r.usageId) {
      assert Kept(rows, floor)[|k|].usageId == r.usageId;
    }
  }

  function AllRows(answers: seq<LocalAnswer>): seq<UsageRow> {
    if answers == [] then [] else AllRows(answers[..|answers| - 1]) + answers[|answers| - 1].rows
  }

  function MinFloor(answers: seq<LocalAnswer>): int
    requires answers != []
  {
    if |answers| == 1 then answers[0].floor
    else Min(MinFloor(answers[..|answers| - 1]), answers[|answers| - 1].floor)
  }

  /** The rows a merged page shows. */
  function Merge(answers: seq<LocalAnswer>, limit: nat): seq<UsageRow>
    requires answers != [] && limit >= 1
  {
    PageOf(SortRows(Kept(AllRows(answers), MinFloor(answers))), limit)
  }

  ghost predicate CursorIds(rows: seq<UsageRow>) {
    forall i :: 0 <= i < |rows| ==> rows[i].id == RowCursor(rows[i])
  }

  ghost predicate SeenIs(seen: set<UsageId>, rows: seq<UsageRow>) {
    forall u :: u in seen <==> HasId(rows, u)
  }

  /** The loops of `mergedPage`: the lowest floor, the rows seen once, the sort, the tied tail. */
  method MergedRows(answers: seq<LocalAnswer>, limit: nat) returns (rows: seq<UsageRow>)
    requires answers != [] && limit >= 1 && forall a :: a in answers ==> CursorIds(a.rows)
    ensures rows == Merge(answers, limit) && CursorIds(rows)
  {
    var floor := LowestFloor(answers);
    var collected := CollectRows(answers, floor);
    var sorted := SortRows(collected);
    SortKeepsIds(collected);
    var end := PageEnd(sorted, limit);
    rows := sorted[..end];
  }

  method MergedPage(answers: seq<LocalAnswer>, q: Query) returns (page: UsagePage)
    requires answers != [] && forall a :: a in answers ==> CursorIds(a.rows)
    ensures page.rows == Merge(answers, Limit(q))
    ensures page.totals == SumTotals(page.rows) && TotalsAre(page.rows, page.totals)
    ensures page.maxId == if page.rows == [] then None else Some(RowCursor(page.rows[|page.rows| - 1]))
    ensures IsMerged(answers, LimitSent(q), page.rows)
  {
    var rows := MergedRows(answers, Limit(q));
    ParamsAreSent(q);
    MergeIsMerged(answers, LimitSent(q));
    page := Page(rows);
  }

  lemma SortKeepsIds(rows: seq<UsageRow>)
    requires CursorIds(rows)
    ensures CursorIds(SortRows(rows))
  {
    var t := SortRows(rows);
    forall k | 0 <= k < |t|
      ensures t[k].id == RowCursor(t[k])
    {
      assert t[k] in rows;
    }
  }

  method LowestFloor(answers: seq<LocalAnswer>) returns (floor: int)
    requires answers != []
    ensures floor == MinFloor(answers) && (forall a :: a in answers ==> floor <= a.floor)
    ensures exists a :: a in answers && floor == a.floor
  {
    floor := answers[0].floor;
    var i := 1;
    assert answers[..1] == [answers[0]];
    while i < |answers|
      invariant 1 <= i <= |answers| && floor == MinFloor(answers[..i])
    {
      assert answers[..i + 1][..i] == answers[..i];
      floor := Min(floor, answers[i].floor);
      i := i + 1;
    }
    assert answers[..|answers|] == answers;
    LeastFloor(answers);
  }

  /** The lowest floor is some answer's and no answer's is lower. */
  lemma {:induction false} LeastFloor(answers: seq<LocalAnswer>)
    requires answers != []
    ensures exists i :: 0 <= i < |answers| && MinFloor(answers) == answers[i].floor
    ensures forall i :: 0 <= i < |answers| ==> MinFloor(answers) <= answers[i].floor
  {
    var n := |answers| - 1;
    if n > 0 {
      LeastFloor(answers[..n]);
      var i :| 0 <= i < n && MinFloor(answers[..n]) == answers[..n][i].floor;
      assert answers[i].floor == answers[..n][i].floor;
    }
    assert MinFloor(answers) == answers[n].floor || exists i :: 0 <= i < n && MinFloor(answers) == answers[i].floor;
  }

  lemma SettledIsBelowFloor(answers: seq<LocalAnswer>, cursor: int)
    requires answers != []
    ensures Settled(answers, cursor) <==> cursor < MinFloor(answers)
  {
    LeastFloor(answers);
  }

  lemma ReportedIsIn(answers: seq<LocalAnswer>, r: UsageRow)
    ensures Reported(answers, r) <==> r in AllRows(answers)
  {
    AllRowsMembers(answers, r);
  }

  lemma PageCut(u: seq<UsageRow>, limit: nat, r: UsageRow)
    requires Sorted(u) && limit >= 1
    ensures var p := PageOf(u, limit);
            && Sorted(p) && (r in p ==> r in u)
            && (r in u ==> r in p || (|p| >= limit && RowCursor(p[|p| - 1]) < RowCursor(r)))
            && forall k :: limit <= k < |p| ==> RowCursor(p[k]) == RowCursor(p[limit - 1])
  {
    PageOfUnion(u, limit);
  }

  /** What the merge is, on the answers alone. */
  lemma MergeIsMerged(answers: seq<LocalAnswer>, limit: nat)
    requires answers != [] && limit >= 1
    ensures IsMerged(answers, limit, Merge(answers, limit))
  {
    var all, floor := AllRows(answers), MinFloor(answers);
    var u := SortRows(Kept(all, floor));
    KeptIsDistinct(all, floor);
    SortRowsSorts(Kept(all, floor));
    var p := PageOf(u, limit);
    forall r
      ensures r in p ==> Reported(answers, r) && Settled(answers, RowCursor(r))
      ensures Sorted(p) && forall k :: limit <= k < |p| ==> RowCursor(p[k]) == RowCursor(p[limit - 1])
    {
      PageCut(u, limit, r);
      if r in p {
        KeptIsBelow(all, floor, r);
        ReportedIsIn(answers, r);
        SettledIsBelowFloor(answers, RowCursor(r));
      }
    }
    forall r | Reported(answers, r) && Settled(answers, RowCursor(r))
      ensures Held(p, r.usageId) || (|p| >= limit && RowCursor(p[|p| - 1]) < RowCursor(r))
    {
      ReportedIsIn(answers, r);
      SettledIsBelowFloor(answers, RowCursor(r));
      KeptHasEveryId(all, floor, r);
      var i :| 0 <= i < |Kept(all, floor)| && Kept(all, floor)[i].usageId == r.usageId;
      PageCut(u, limit, Kept(all, floor)[i]);
    }
  }

  method PageEnd(sorted: seq<UsageRow>, limit: nat) returns (end: nat)
    requires CursorIds(sorted) && limit >= 1
    ensures end <= |sorted| && sorted[..end] == PageOf(sorted, limit)
  {
    end := Min(limit, |sorted|);
    while end < |sorted| && sorted[end].id == sorted[end - 1].id
      invariant Min(limit, |sorted|) <= end <= |sorted|
      invariant |sorted| > limit ==> TieEnd(sorted, end) == TieEnd(sorted, limit)
    {
      end := end + 1;
    }
  }

  /** The outer loop: every answer in turn, this machine's first. */
  method CollectRows(answers: seq<LocalAnswer>, floor: int) returns (rows: seq<UsageRow>)
    requires forall a :: a in answers ==> CursorIds(a.rows)
    ensures rows == Kept(AllRows(answers), floor) && CursorIds(rows)
  {
    var seen: set<UsageId> := {};
    rows := [];
    var i := 0;
    while i < |answers|
      invariant 0 <= i <= |answers|
      invariant rows == Kept(AllRows(answers[..i]), floor) && CursorIds(rows) && SeenIs(seen, rows)
    {
      assert answers[i] in answers;
      assert answers[..i + 1][..i] == answers[..i];
      seen, rows := CollectFrom(AllRows(answers[..i]), answers[i].rows, floor, seen, rows);
      i := i + 1;
    }
    assert answers[..|answers|] == answers;
  }

  /** The inner loop: one answer's rows, against those already seen. */
  method CollectFrom(ghost before: seq<UsageRow>, mine: seq<UsageRow>, floor: int,
                     seen0: set<UsageId>, rows0: seq<UsageRow>)
    returns (seen: set<UsageId>, rows: seq<UsageRow>)
    requires rows0 == Kept(before, floor) && CursorIds(rows0) && SeenIs(seen0, rows0) && CursorIds(mine)
    ensures rows == Kept(before + mine, floor) && CursorIds(rows) && SeenIs(seen, rows)
  {
    seen, rows := seen0, rows0;
    var j := 0;
    assert before + mine[..0] == before;
    while j < |mine|
      invariant 0 <= j <= |mine|
      invariant rows == Kept(before + mine[..j], floor) && CursorIds(rows) && SeenIs(seen, rows)
    {
      var r := mine[j];
      KeptStep(before, mine, j, floor);
      if r.id < floor && r.usageId !in seen {
        SeenGrows(seen, rows, r);
        seen := seen + {r.usageId};
        rows := rows + [r];
      }
      j := j + 1;
    }
    assert mine[..|mine|] == mine;
  }

  lemma KeptStep(before: seq<UsageRow>, mine: seq<UsageRow>, j: nat, floor: int)
    requires j < |mine|
    ensures Kept(before + mine[..j + 1], floor) == KeepOne(Kept(before + mine[..j], floor), mine[j], floor)
  {
    var s := before + mine[..j + 1];
    assert s[..|s| - 1] == before + mine[..j];
  }

  lemma HasIdOfSnoc(rows: seq<UsageRow>, r: UsageRow, u: UsageId)
    ensures HasId(rows + [r], u) <==> HasId(rows, u) || r.usageId == u
  {
    var more := rows + [r];
    if i :| 0 <= i < |rows| && rows[i].usageId == u {
      assert more[i].usageId == u;
    }
    if r.usageId == u {
      assert more[|rows|].usageId == u;
    }
    if i :| 0 <= i < |more| && more[i].usageId == u {
      assert i < |rows| ==> rows[i].usageId == u;
    }
  }

  lemma SeenGrows(seen: set<UsageId>, rows: seq<UsageRow>, r: UsageRow)
    requires SeenIs(seen, rows)
    ensures SeenIs(seen + {r.usageId}, rows + [r])
  {
    forall u
      ensures u in seen + {r.usageId} <==> HasId(rows + [r], u)
    {
      HasIdOfSnoc(rows, r, u);
    }
  }

  // ---------------------------------------------------------------------------
  // Truncated shares lose nothing
  // ---------------------------------------------------------------------------

  ghost predicate InSome(tables: seq<seq<UsageRow>>, r: UsageRow) {
    exists i :: 0 <= i < |tables| && r in tables[i]
  }

  /** A usage_id names one row, whichever machine reports it. */
  ghost predicate IdsNameRows(tables: seq<seq<UsageRow>>) {
    forall r, t :: InSome(tables, r) && InSome(tables, t) && r.usageId == t.usageId ==> r == t
  }

  /** The k-th of some rows of a sorted list is at place k or later in that list. */
  lemma {:induction false} PlaceOf(m: seq<UsageRow>, few: seq<UsageRow>, k: nat) returns (i: nat)
    requires Sorted(m) && StrictCursors(few) && k < |few| && forall r :: r in few ==> r in m
    ensures k <= i < |m| && m[i] == few[k]
    ensures RowCursor(m[k]) <= RowCursor(few[k])
  {
    assert few[k] in few;
    i :| 0 <= i < |m| && m[i] == few[k];
    if k > 0 {
      var before := PlaceOf(m, few, k - 1);
      assert RowCursor(few[k - 1]) < RowCursor(few[k]);
      assert i < before ==> Before(m[i], m[before]);
    }
    assert k < i ==> Before(m[k], m[i]);
  }

  /** `m` lacks some rows of `u`, but each lies past the `limit`-th row of `m`. */
  ghost predicate LacksOnlyLate(u: seq<UsageRow>, m: seq<UsageRow>, limit: nat)
    requires limit >= 1
  {
    && (forall r :: r in m ==> r in u)
    && (forall r :: r in u && r !in m ==> |m| >= limit && RowCursor(m[limit - 1]) < RowCursor(r))
  }

  /** After equal beginnings of sorted lists, a row of the one that is also in the other comes
      no earlier there. */
  lemma NotEarlier(s: seq<UsageRow>, t: seq<UsageRow>, i: nat) returns (a: nat)
    requires Sorted(s) && Sorted(t) && i < |s| && i <= |t| && s[..i] == t[..i] && s[i] in t
    ensures i <= a < |t| && t[a] == s[i]
    ensures t[i] == s[i] || Before(t[i], s[i])
  {
    a := IndexOf(t, s[i]);
    forall k | 0 <= k < i
      ensures Before(t[k], s[i])
    {
      assert t[k] == t[..i][k] == s[..i][k] == s[k];
    }
    assert i < a ==> Before(t[i], t[a]);
  }

  lemma {:induction false} FirstRowsAgree(u: seq<UsageRow>, m: seq<UsageRow>, limit: nat, i: nat)
    requires Sorted(u) && Sorted(m) && limit >= 1 && LacksOnlyLate(u, m, limit)
    requires limit <= |m| && i < |m| && RowCursor(m[i]) <= RowCursor(m[limit - 1])
    ensures i < |u| && u[..i + 1] == m[..i + 1]
  {
    if i > 0 {
      assert Before(m[i - 1], m[i]);
      FirstRowsAgree(u, m, limit, i - 1);
    }
    assert u[..i] == m[..i];
    assert m[i] in m;
    var a := NotEarlier(m, u, i);
    assert u[i] in u;
    assert u[i] in m;
    var b := NotEarlier(u, m, i);
    assert u[i] == m[i];
  }

  lemma NextPastTies(u: seq<UsageRow>, m: seq<UsageRow>, limit: nat, e: nat)
    requires Sorted(u) && Sorted(m) && limit >= 1 && LacksOnlyLate(u, m, limit)
    requires limit <= e <= |m| && e < |u| && u[..e] == m[..e]
    requires e < |m| ==> RowCursor(m[e]) != RowCursor(m[limit - 1])
    ensures RowCursor(u[e]) != RowCursor(u[limit - 1])
  {
  }

  lemma PagesAgreePastLate(u: seq<UsageRow>, m: seq<UsageRow>, limit: nat, late: UsageRow)
    requires Sorted(u) && Sorted(m) && limit >= 1 && LacksOnlyLate(u, m, limit)
    requires late in u && late !in m
    ensures PageOf(u, limit) == PageOf(m, limit)
  {
    var e := if |m| == limit then limit else TieEnd(m, limit);
    FirstRowsAgree(u, m, limit, e - 1);
    LateIsPast(u, m, e, late);
    NextPastTies(u, m, limit, e);
    forall i | limit - 1 <= i < e
      ensures RowCursor(u[i]) == RowCursor(m[i])
    {
      assert u[i] == u[..e][i] == m[..e][i];
    }
    TieEndIs(u, limit, e);
  }

  lemma PagesAgree(u: seq<UsageRow>, m: seq<UsageRow>, limit: nat)
    requires Sorted(u) && Sorted(m) && limit >= 1 && LacksOnlyLate(u, m, limit)
    ensures PageOf(u, limit) == PageOf(m, limit)
  {
    if late :| late in u && late !in m {
      PagesAgreePastLate(u, m, limit, late);
    } else {
      SortedUnique(u, m);
    }
  }

  lemma LateIsPast(u: seq<UsageRow>, m: seq<UsageRow>, e: nat, late: UsageRow)
    requires e <= |u| && e <= |m| && u[..e] == m[..e] && late in u && late !in m
    ensures e < |u|
  {
  }

  lemma {:induction false} TieEndIs(u: seq<UsageRow>, end: nat, e: nat)
    requires 1 <= end <= e < |u| && RowCursor(u[e]) != RowCursor(u[end - 1])
    requires forall i :: end <= i < e ==> RowCursor(u[i]) == RowCursor(u[end - 1])
    ensures TieEnd(u, end) == e
    decreases e - end
  {
  }

  ghost predicate AnswersOf(answers: seq<LocalAnswer>, tables: seq<seq<UsageRow>>, limit: nat) {
    && |answers| == |tables|
    && forall i :: 0 <= i < |tables| ==> answers[i].rows == FirstN(tables[i], limit)
  }

  lemma {:induction false} AllRowsMembers(answers: seq<LocalAnswer>, r: UsageRow)
    ensures r in AllRows(answers) <==> exists i :: 0 <= i < |answers| && r in answers[i].rows
  {
    if answers != [] {
      var front := answers[..|answers| - 1];
      AllRowsMembers(front, r);
      if r in AllRows(front) {
        var i :| 0 <= i < |front| && r in front[i].rows;
        assert r in answers[i].rows;
      }
      if i :| 0 <= i < |answers| && r in answers[i].rows {
        if i < |front| {
          assert r in front[i].rows;
        }
      }
    }
  }

  lemma {:induction false} MinFloorIsLeast(answers: seq<LocalAnswer>, i: nat)
    requires i < |answers|
    ensures MinFloor(answers) <= answers[i].floor
  {
    if |answers| > 1 && i < |answers| - 1 {
      MinFloorIsLeast(answers[..|answers| - 1], i);
    }
  }

  lemma MissedIsLater(s: seq<UsageRow>, limit: nat, r: UsageRow)
    requires StrictCursors(s) && r in s && r !in FirstN(s, limit)
    ensures |FirstN(s, limit)| == limit && forall t :: t in FirstN(s, limit) ==> RowCursor(t) < RowCursor(r)
  {
    var k := IndexOf(s, r);
    assert FirstN(s, limit) == s[..limit];
    forall j | 0 <= j < limit
      ensures RowCursor(s[j]) < RowCursor(r)
    {
      assert s[j] in s[..limit];
    }
  }

  lemma ShareMisses(tables: seq<seq<UsageRow>>, i: nat, limit: nat, r: UsageRow, m: seq<UsageRow>, floor: int)
    requires limit >= 1 && i < |tables| && StrictCursors(tables[i]) && Sorted(m)
    requires r in tables[i] && r !in FirstN(tables[i], limit) && RowCursor(r) < floor
    requires forall t :: t in FirstN(tables[i], limit) && RowCursor(t) < floor ==> t in m
    ensures |m| >= limit && RowCursor(m[limit - 1]) < RowCursor(r)
  {
    var few := FirstN(tables[i], limit);
    MissedIsLater(tables[i], limit, r);
    assert few[limit - 1] in few;
    var _ := PlaceOf(m, few, limit - 1);
  }

  lemma KeptKeepsAll(rows: seq<UsageRow>, floor: int, r: UsageRow)
    requires r in rows && RowCursor(r) < floor
    requires forall t :: t in rows && t.usageId == r.usageId ==> t == r
    ensures r in Kept(rows, floor)
  {
    var k := Kept(rows, floor);
    KeptHasEveryId(rows, floor, r);
    var i :| 0 <= i < |k| && k[i].usageId == r.usageId;
    KeptIsBelow(rows, floor, k[i]);
  }

  /** Although every machine sends only its first `limit` rows, the merged page is the page of
      the whole union: the sorted in-scope rows below the lowest floor, cut after `limit` rows
      and their ties. Rests on no machine repeating a cursor. */
  lemma TruncatedMergeIsExact(answers: seq<LocalAnswer>, tables: seq<seq<UsageRow>>, limit: nat, u: seq<UsageRow>)
    requires answers != [] && limit >= 1 && AnswersOf(answers, tables, limit) && IdsNameRows(tables)
    requires forall i :: 0 <= i < |tables| ==> StrictCursors(tables[i])
    requires Sorted(u) && forall r :: r in u <==> InSome(tables, r) && RowCursor(r) < MinFloor(answers)
    ensures Merge(answers, limit) == PageOf(u, limit)
  {
    var floor := MinFloor(answers);
    var all := AllRows(answers);
    var m := SortRows(Kept(all, floor));
    KeptIsDistinct(all, floor);
    SortRowsSorts(Kept(all, floor));
    forall r | r in all
      ensures InSome(tables, r)
    {
      AllRowsMembers(answers, r);
      var i :| 0 <= i < |answers| && r in answers[i].rows;
      assert r in tables[i];
    }
    forall r | r in m
      ensures r in u
    {
      KeptIsBelow(all, floor, r);
    }
    forall i, r | 0 <= i < |tables| && r in FirstN(tables[i], limit) && RowCursor(r) < floor
      ensures r in m
    {
      assert r in answers[i].rows;
      AllRowsMembers(answers, r);
      KeptKeepsAll(all, floor, r);
    }
    forall r | r in u && r !in m
      ensures |m| >= limit && RowCursor(m[limit - 1]) < RowCursor(r)
    {
      var i :| 0 <= i < |tables| && r in tables[i];
      ShareMisses(tables, i, limit, r, m, floor);
    }
    PagesAgree(u, m, limit);
  }

  /** The union itself: what an unlimited reader with a full view would list. */
  function FullList(tables: seq<seq<UsageRow>>, floor: int): seq<UsageRow> {
    SortRows(Kept(AllRows(seq(|tables|, i requires 0 <= i < |tables| => LocalAnswer(tables[i], floor))), floor))
  }

  lemma AllRowsOfTables(tables: seq<seq<UsageRow>>, floor: int, r: UsageRow)
    ensures r in AllRows(seq(|tables|, i requires 0 <= i < |tables| => LocalAnswer(tables[i], floor)))
       <==> InSome(tables, r)
  {
    var answers := seq(|tables|, i requires 0 <= i < |tables| => LocalAnswer(tables[i], floor));
    AllRowsMembers(answers, r);
    if i :| 0 <= i < |answers| && r in answers[i].rows {
      assert r in tables[i];
    }
    if i :| 0 <= i < |tables| && r in tables[i] {
      assert r in answers[i].rows;
    }
  }

  lemma FullListIsUnion(tables: seq<seq<UsageRow>>, floor: int)
    requires IdsNameRows(tables)
    ensures Sorted(FullList(tables, floor))
    ensures forall r :: r in FullList(tables, floor) <==> InSome(tables, r) && RowCursor(r) < floor
  {
    var all := AllRows(seq(|tables|, i requires 0 <= i < |tables| => LocalAnswer(tables[i], floor)));
    KeptIsDistinct(all, floor);
    SortRowsSorts(Kept(all, floor));
    forall r
      ensures r in all <==> InSome(tables, r)
    {
      AllRowsOfTables(tables, floor, r);
    }
    forall r
      ensures r in FullList(tables, floor) <==> InSome(tables, r) && RowCursor(r) < floor
    {
      if InSome(tables, r) && RowCursor(r) < floor {
        KeptKeepsAll(all, floor, r);
      }
      if r in Kept(all, floor) {
        KeptIsBelow(all, floor, r);
      }
    }
  }

  lemma PageOfUnion(u: seq<UsageRow>, limit: nat)
    requires Sorted(u) && limit >= 1
    ensures var p := PageOf(u, limit);
            && Sorted(p)
            && (p == [] <==> u == [])
            && (p != [] ==> p[|p| - 1] in u)
            && (p != [] ==> forall r :: r in p <==> r in u && RowCursor(r) <= RowCursor(p[|p| - 1]))
  {
  }

  /** What a complete page below a floor is: every listed row up to its last cursor. */
  ghost predicate CompleteBelow(p: seq<UsageRow>, tables: seq<seq<UsageRow>>, floor: int) {
    && Sorted(p)
    && (p == [] ==> forall r :: InSome(tables, r) ==> RowCursor(r) >= floor)
    && (p != [] ==>
         && RowCursor(p[|p| - 1]) < floor
         && forall r :: r in p <==> InSome(tables, r) && RowCursor(r) <= RowCursor(p[|p| - 1]))
  }

  lemma FullPageIsComplete(tables: seq<seq<UsageRow>>, floor: int, limit: nat)
    requires limit >= 1 && IdsNameRows(tables)
    ensures CompleteBelow(PageOf(FullList(tables, floor), limit), tables, floor)
  {
    var u := FullList(tables, floor);
    FullListIsUnion(tables, floor);
    PageOfUnion(u, limit);
    var p := PageOf(u, limit);
    forall r | InSome(tables, r) && p == []
      ensures RowCursor(r) >= floor
    {
      assert r !in u;
    }
  }

  /** A nonempty merged page is every listed row up to its last cursor, and that cursor is below
      every answering machine's floor; an empty one means there is nothing below the floor. */
  lemma MergedPageIsComplete(answers: seq<LocalAnswer>, tables: seq<seq<UsageRow>>, limit: nat)
    requires answers != [] && limit >= 1 && AnswersOf(answers, tables, limit) && IdsNameRows(tables)
    requires forall i :: 0 <= i < |tables| ==> StrictCursors(tables[i])
    ensures Merge(answers, limit) == PageOf(FullList(tables, MinFloor(answers)), limit)
    ensures CompleteBelow(Merge(answers, limit), tables, MinFloor(answers))
  {
    var u := FullList(tables, MinFloor(answers));
    FullListIsUnion(tables, MinFloor(answers));
    TruncatedMergeIsExact(answers, tables, limit, u);
    FullPageIsComplete(tables, MinFloor(answers), limit);
  }
}
