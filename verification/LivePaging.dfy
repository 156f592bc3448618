/** Reading usage page by page while every machine keeps writing.
    A reader passes each page's last cursor back as `since`. A read is not atomic: each machine
    takes its floor and selects its rows at its own moment, with writes on any machine, and
    floors taken for other readers, in between. */
module LivePaging {
  import opened UsageIds
  import opened Rows
  import opened Ledger
  import opened Machines
  import opened MergedUsage
  import opened ReadPromises

  /** Where a machine is in answering the read under way; `upTo` rows had been written when it
      selected its share. */
  datatype Progress = Waiting | Floored(floor: int) | Answered(floor: int, upTo: nat)

  datatype Reader = Idle | Reading(limit: nat, progress: seq<Progress>)

  datatype State = State(machines: seq<Machine>, since: int, got: seq<UsageRow>, reader: Reader)

  /** A fixed caller: its scope and filters, and the cursor it starts from. */
  datatype Caller = Caller(scope: UsageRow -> bool, start: int)

  function Pending(who: Caller, since: int): UsageRow -> bool {
    r => who.scope(r) && RowCursor(r) > since
  }

  /** What a machine that answered sends, before the cut at `limit`. */
  function Share(s: State, who: Caller, i: nat): seq<UsageRow>
    requires i < |s.machines| && s.reader.Reading? && |s.reader.progress| == |s.machines|
    requires s.reader.progress[i].Answered? && s.reader.progress[i].upTo <= |s.machines[i].table|
  {
    Filter(s.machines[i].table[..s.reader.progress[i].upTo], Pending(who, s.since))
  }

  ghost predicate AllAnswered(s: State) {
    && s.reader.Reading? && |s.reader.progress| == |s.machines|
    && forall i :: 0 <= i < |s.machines| ==>
         s.reader.progress[i].Answered? && s.reader.progress[i].upTo <= |s.machines[i].table|
  }

  function Shares(s: State, who: Caller): seq<seq<UsageRow>>
    requires AllAnswered(s)
  {
    seq(|s.machines|, i requires 0 <= i < |s.machines| => Share(s, who, i))
  }

  function AnswersNow(s: State, who: Caller): seq<LocalAnswer>
    requires AllAnswered(s) && s.reader.limit >= 1
  {
    seq(|s.machines|, i requires 0 <= i < |s.machines| =>
      LocalAnswer(FirstN(Share(s, who, i), s.reader.limit), s.reader.progress[i].floor))
  }

  lemma FilterOfCons(r: UsageRow, rest: seq<UsageRow>, p: UsageRow -> bool)
    ensures Filter([r] + rest, p) == (if p(r) then [r] else []) + Filter(rest, p)
  {
    assert ([r] + rest)[1..] == rest;
  }

  lemma CursorsOfCons(r: UsageRow, rest: seq<UsageRow>)
    ensures WithCursors([r] + rest) == [r.(id := RowCursor(r))] + WithCursors(rest)
  {
  }

  lemma {:induction false} FilterThenCursors(rows: seq<UsageRow>, p: UsageRow -> bool, shown: UsageRow -> bool)
    requires forall i :: 0 <= i < |rows| ==> (p(rows[i]) <==> shown(rows[i].(id := RowCursor(rows[i]))))
    ensures WithCursors(Filter(rows, p)) == Filter(WithCursors(rows), shown)
  {
    if rows != [] {
      var r, rest := rows[0], rows[1..];
      assert rows == [r] + rest;
      FilterThenCursors(rest, p, shown);
      FilterOfCons(r, rest, p);
      CursorsOfCons(r, rest);
      CursorsOfCons(r, Filter(rest, p));
      FilterOfCons(r.(id := RowCursor(r)), WithCursors(rest), shown);
    }
  }

  /** What `localPage` sends is the share of this module: the first `limit` of the rows pending for
      the caller, on tables whose ids are cursors. */
  lemma LocalPageIsShare(rows: seq<UsageRow>, scope: Scope, q: Query, who: Caller)
    requires forall r :: who.scope(r) <==> Reaches(scope, q, r)
    requires SinceFits(SinceSent(q))
    ensures WithCursors(FirstN(Filter(rows, Picks(scope, q)), Limit(q)))
         == FirstN(Filter(WithCursors(rows), Pending(who, SinceSent(q))), LimitSent(q))
  {
    ParamsAreSent(q);
    forall i | 0 <= i < |rows|
      ensures Picks(scope, q)(rows[i]) <==> Pending(who, Since(q))(rows[i].(id := RowCursor(rows[i])))
    {
      var r := rows[i];
      WantedIsAfterSince(scope, q, r);
      assert Reaches(scope, q, r) <==> Reaches(scope, q, r.(id := RowCursor(r)));
    }
    FilterThenCursors(rows, Picks(scope, q), Pending(who, Since(q)));
  }

  // ---------------------------------------------------------------------------
  // Steps
  // ---------------------------------------------------------------------------

  ghost predicate Record(s: State, t: State, i: nat, now: int, row: UsageRow) {
    CanRecord(s.machines, i, now, row) && t == s.(machines := Recorded(s.machines, i, now, row))
  }

  ghost predicate ClockOnly(s: State, t: State, i: nat, call: Call) {
    i < |s.machines| && t == s.(machines := Clocked(s.machines, i, call))
  }

  ghost predicate Begin(s: State, t: State, limit: nat) {
    && s.reader.Idle? && limit >= 1
    && t == s.(reader := Reading(limit, seq(|s.machines|, _ => Waiting)))
  }

  ghost predicate TakeFloor(s: State, t: State, i: nat, now: int) {
    && s.reader.Reading? && i < |s.machines| == |s.reader.progress| && s.reader.progress[i].Waiting?
    && var c := s.machines[i].clock;
    && t == s.(machines := Clocked(s.machines, i, AskFloor(now)),
               reader := s.reader.(progress := s.reader.progress[i :=
                           Floored(FloorStamp(c, now) - EPOCH_MS * PER_MS)]))
  }

  ghost predicate SelectRows(s: State, t: State, i: nat) {
    && s.reader.Reading? && i < |s.machines| == |s.reader.progress| && s.reader.progress[i].Floored?
    && t == s.(reader := s.reader.(progress := s.reader.progress[i :=
                 Answered(s.reader.progress[i].floor, |s.machines[i].table|)]))
  }

  /** The merged page is handed out and its last cursor becomes `since`. */
  ghost predicate Finish(s: State, t: State, who: Caller) {
    && AllAnswered(s) && s.reader.limit >= 1 && s.machines != []
    && var page := Merge(AnswersNow(s, who), s.reader.limit);
    && t == s.(got := s.got + page, reader := Idle,
               since := if page == [] then s.since else RowCursor(page[|page| - 1]))
  }

  datatype Action =
    | Recording(i: nat, now: int, row: UsageRow)
    | Clocking(i: nat, call: Call)
    | Beginning(limit: nat)
    | Flooring(i: nat, now: int)
    | Selecting(i: nat)
    | Finishing

  ghost predicate Does(s: State, t: State, who: Caller, a: Action) {
    match a
    case Recording(i, now, row) => Record(s, t, i, now, row)
    case Clocking(i, call) => ClockOnly(s, t, i, call)
    case Beginning(limit) => Begin(s, t, limit)
    case Flooring(i, now) => TakeFloor(s, t, i, now)
    case Selecting(i) => SelectRows(s, t, i)
    case Finishing => Finish(s, t, who)
  }

  ghost predicate Step(s: State, t: State, who: Caller) {
    exists a :: Does(s, t, who, a)
  }

  ghost predicate Init(s: State, who: Caller) {
    && s.machines != [] && Booted(s.machines)
    && s.since == who.start && s.got == [] && s.reader == Idle
  }

  // ---------------------------------------------------------------------------
  // The invariant
  // ---------------------------------------------------------------------------

  /** Everything handed out so far: exactly the in-scope rows after the start, up to `since`. */
  ghost predicate GotIsExact(s: State, who: Caller) {
    && Sorted(s.got)
    && (forall r :: r in s.got <==>
         InTables(s.machines, r) && who.scope(r) && who.start < RowCursor(r) <= s.since)
  }

  /** Once the cursor has moved, no machine can write at or below it any more. */
  ghost predicate SinceIsClosed(s: State, who: Caller) {
    && who.start <= s.since
    && (who.start < s.since ==> forall i :: 0 <= i < |s.machines| ==> NextCursor(s.machines[i].clock) > s.since)
  }

  /** A machine that gave its floor writes nothing below it later. */
  ghost predicate ProgressOk(m: Machine, p: Progress) {
    match p
    case Waiting => true
    case Floored(floor) => floor <= NextCursor(m.clock)
    case Answered(floor, upTo) =>
      && floor <= NextCursor(m.clock) && upTo <= |m.table|
      && forall k :: upTo <= k < |m.table| ==> RowCursor(m.table[k]) >= floor
  }

  ghost predicate ReaderOk(s: State) {
    s.reader.Reading? ==>
      && s.reader.limit >= 1 && |s.reader.progress| == |s.machines|
      && forall i :: 0 <= i < |s.machines| ==> ProgressOk(s.machines[i], s.reader.progress[i])
  }

  ghost predicate Inv(s: State, who: Caller) {
    && s.machines != [] && MachinesOk(s.machines)
    && GotIsExact(s, who) && SinceIsClosed(s, who) && ReaderOk(s)
  }

  lemma InitInv(s: State, who: Caller)
    requires Init(s, who)
    ensures Inv(s, who)
  {
  }

  lemma RecordKeepsProgress(m: Machine, p: Progress, now: int, row: UsageRow)
    requires TableOk(m.table, m.clock) && Stamp(row.usageId) == IdStamp(Tick(m.clock, now)) && ProgressOk(m, p)
    ensures ProgressOk(m.(clock := Tick(m.clock, now), table := m.table + [row]), p)
  {
    RecordedTableOk(m.table, m.clock, now, row);
  }

  lemma RecordKeepsReader(s: State, i: nat, now: int, row: UsageRow)
    requires ReaderOk(s) && MachinesOk(s.machines) && CanRecord(s.machines, i, now, row)
    ensures ReaderOk(s.(machines := Recorded(s.machines, i, now, row)))
  {
    if s.reader.Reading? {
      RecordKeepsProgress(s.machines[i], s.reader.progress[i], now, row);
    }
  }

  lemma RecordKeepsInv(s: State, t: State, who: Caller, i: nat, now: int, row: UsageRow)
    requires Inv(s, who) && Record(s, t, i, now, row)
    ensures Inv(t, who)
  {
    RecordingKeepsMachines(s.machines, i, now, row);
    RecordKeepsReader(s, i, now, row);
    assert who.start < s.since ==> RowCursor(row) > s.since;
  }

  lemma ClockKeepsInv(s: State, t: State, who: Caller, i: nat, call: Call, reader: Reader)
    requires Inv(s, who) && i < |s.machines|
    requires t == s.(machines := Clocked(s.machines, i, call), reader := reader)
    requires ReaderOk(t)
    ensures Inv(t, who)
  {
    ClockingKeepsMachines(s.machines, i, call);
  }

  lemma ClockKeepsReader(s: State, i: nat, call: Call)
    requires ReaderOk(s) && i < |s.machines| && MachinesOk(s.machines)
    ensures ReaderOk(s.(machines := Clocked(s.machines, i, call)))
  {
  }

  lemma AnswerTables(s: State, who: Caller)
    requires Inv(s, who) && AllAnswered(s)
    ensures var tables := Shares(s, who);
            && IdsNameRows(tables)
            && (forall i :: 0 <= i < |tables| ==> StrictCursors(tables[i]))
            && AnswersOf(AnswersNow(s, who), tables, s.reader.limit)
            && (forall r :: InSome(tables, r) ==> InTables(s.machines, r) && Pending(who, s.since)(r))
  {
    var tables := Shares(s, who);
    forall i | 0 <= i < |tables|
      ensures StrictCursors(tables[i])
      ensures forall r :: r in tables[i] ==> r in s.machines[i].table && Pending(who, s.since)(r)
    {
      FilterKeepsStrict(s.machines[i].table[..s.reader.progress[i].upTo], Pending(who, s.since));
    }
    forall r | InSome(tables, r)
      ensures InTables(s.machines, r) && Pending(who, s.since)(r)
    {
      var i :| 0 <= i < |tables| && r in tables[i];
      assert r in s.machines[i].table;
    }
  }

  lemma SharedAt(s: State, who: Caller, i: nat, k: nat)
    requires AllAnswered(s) && i < |s.machines| && k < |s.machines[i].table|
    requires ProgressOk(s.machines[i], s.reader.progress[i])
    requires Pending(who, s.since)(s.machines[i].table[k])
    requires RowCursor(s.machines[i].table[k]) < s.reader.progress[i].floor
    ensures s.machines[i].table[k] in Share(s, who, i)
  {
  }

  /** A pending row below every floor is in some machine's share, however late it was written. */
  lemma PendingRowsAreShared(s: State, who: Caller, r: UsageRow)
    requires ReaderOk(s) && AllAnswered(s)
    requires InTables(s.machines, r) && Pending(who, s.since)(r) && RowCursor(r) < MinFloor(AnswersNow(s, who))
    ensures InSome(Shares(s, who), r)
  {
    var i :| 0 <= i < |s.machines| && r in s.machines[i].table;
    var k := IndexOf(s.machines[i].table, r);
    MinFloorIsLeast(AnswersNow(s, who), i);
    SharedAt(s, who, i, k);
    assert r in Shares(s, who)[i];
  }

  lemma PageBelowClocks(s: State, who: Caller, i: nat)
    requires Inv(s, who) && AllAnswered(s) && i < |s.machines|
    ensures MinFloor(AnswersNow(s, who)) <= NextCursor(s.machines[i].clock)
  {
    MinFloorIsLeast(AnswersNow(s, who), i);
    assert ProgressOk(s.machines[i], s.reader.progress[i]);
  }

  lemma SharedIsPending(s: State, who: Caller, r: UsageRow)
    requires Inv(s, who) && AllAnswered(s) && InSome(Shares(s, who), r)
    ensures InTables(s.machines, r) && Pending(who, s.since)(r)
  {
    AnswerTables(s, who);
  }

  lemma PageIsShared(s: State, who: Caller, page: seq<UsageRow>, r: UsageRow)
    requires Inv(s, who) && AllAnswered(s) && page == Merge(AnswersNow(s, who), s.reader.limit) != []
    ensures RowCursor(page[|page| - 1]) < MinFloor(AnswersNow(s, who))
    ensures r in page <==> InSome(Shares(s, who), r) && RowCursor(r) <= RowCursor(page[|page| - 1])
  {
    AnswerTables(s, who);
    MergedPageIsComplete(AnswersNow(s, who), Shares(s, who), s.reader.limit);
  }

  lemma PageRows(s: State, who: Caller, page: seq<UsageRow>, r: UsageRow)
    requires Inv(s, who) && AllAnswered(s) && page == Merge(AnswersNow(s, who), s.reader.limit) != []
    ensures r in page <==>
              InTables(s.machines, r) && who.scope(r) && s.since < RowCursor(r) <= RowCursor(page[|page| - 1])
  {
    PageIsShared(s, who, page, r);
    if r in page {
      SharedIsPending(s, who, r);
    } else if InTables(s.machines, r) && Pending(who, s.since)(r) && RowCursor(r) <= RowCursor(page[|page| - 1]) {
      PendingRowsAreShared(s, who, r);
    }
  }

  /** The page of a finishing read, in terms of the tables as they are now. */
  lemma FinishedPage(s: State, who: Caller)
    requires Inv(s, who) && AllAnswered(s)
    ensures var page := Merge(AnswersNow(s, who), s.reader.limit);
            && Sorted(page)
            && (page != [] ==>
                 var c := RowCursor(page[|page| - 1]);
                 && c > s.since
                 && (forall i :: 0 <= i < |s.machines| ==> NextCursor(s.machines[i].clock) > c)
                 && forall r :: r in page <==>
                      InTables(s.machines, r) && who.scope(r) && s.since < RowCursor(r) <= c)
  {
    var page := Merge(AnswersNow(s, who), s.reader.limit);
    assert Sorted(page) && (page != [] ==> RowCursor(page[|page| - 1]) < MinFloor(AnswersNow(s, who))) by {
      AnswerTables(s, who);
      MergedPageIsComplete(AnswersNow(s, who), Shares(s, who), s.reader.limit);
    }
    if page != [] {
      var c := RowCursor(page[|page| - 1]);
      forall r
        ensures r in page <==> InTables(s.machines, r) && who.scope(r) && s.since < RowCursor(r) <= c
      {
        PageRows(s, who, page, r);
      }
      assert page[|page| - 1] in page;
      forall i | 0 <= i < |s.machines|
        ensures NextCursor(s.machines[i].clock) > c
      {
        PageBelowClocks(s, who, i);
      }
    }
  }

  lemma FinishKeepsInv(s: State, t: State, who: Caller)
    requires Inv(s, who) && Finish(s, t, who)
    ensures Inv(t, who)
  {
    var page := Merge(AnswersNow(s, who), s.reader.limit);
    FinishedPage(s, who);
    if page != [] {
      SortedJoin(s.got, page, s.since);
      assert forall r :: r in t.got <==> r in s.got || r in page;
    } else {
      assert s.got + page == s.got;
    }
  }

  lemma StepKeepsInv(s: State, t: State, who: Caller, a: Action)
    requires Inv(s, who) && Does(s, t, who, a)
    ensures Inv(t, who)
  {
    match a
    case Recording(i, now, row) =>
      RecordKeepsInv(s, t, who, i, now, row);
    case Clocking(i, call) =>
      ClockKeepsReader(s, i, call);
      ClockKeepsInv(s, t, who, i, call, s.reader);
    case Beginning(limit) =>
    case Flooring(i, now) =>
      FloorIsOneNumber(s.machines[i].clock, now);
      ClockKeepsReader(s, i, AskFloor(now));
      ClockKeepsInv(s, t, who, i, AskFloor(now), t.reader);
    case Selecting(i) =>
      assert ProgressOk(s.machines[i], s.reader.progress[i]);
    case Finishing =>
      FinishKeepsInv(s, t, who);
  }

  // ---------------------------------------------------------------------------
  // Whole runs
  // ---------------------------------------------------------------------------

  ghost predicate IsRun(run: seq<State>, who: Caller) {
    && run != [] && Init(run[0], who)
    && forall i, j :: 0 <= i && j == i + 1 < |run| ==> Step(run[i], run[j], who)
  }

  lemma {:induction false} RunInv(run: seq<State>, who: Caller, i: nat)
    requires IsRun(run, who) && i < |run|
    ensures Inv(run[i], who)
  {
    if i == 0 {
      InitInv(run[0], who);
    } else {
      RunInv(run, who, i - 1);
      assert Step(run[i - 1], run[i], who);
      var a :| Does(run[i - 1], run[i], who, a);
      StepKeepsInv(run[i - 1], run[i], who, a);
    }
  }

  /** What never goes back: the cursor, the rows handed out, the tables; and rows new in `t` lie
      past the cursor of `s` once it has moved. */
  ghost predicate Grows(s: State, t: State, who: Caller) {
    && s.since <= t.since && s.got <= t.got
    && (forall r :: InTables(s.machines, r) ==> InTables(t.machines, r))
    && (forall r :: InTables(t.machines, r) && !InTables(s.machines, r) && who.start < s.since
          ==> RowCursor(r) > s.since)
  }

  lemma StepGrows(s: State, t: State, who: Caller, a: Action)
    requires Inv(s, who) && Does(s, t, who, a)
    ensures Grows(s, t, who)
  {
    match a
    case Recording(i, now, row) => RecordingKeepsMachines(s.machines, i, now, row);
    case Clocking(i, call) => ClockingKeepsMachines(s.machines, i, call);
    case Beginning(limit) =>
    case Flooring(i, now) => ClockingKeepsMachines(s.machines, i, AskFloor(now));
    case Selecting(i) =>
    case Finishing => FinishedPage(s, who);
  }

  lemma GrowsIsTransitive(s: State, t: State, u: State, who: Caller)
    requires Grows(s, t, who) && Grows(t, u, who) && who.start <= s.since
    ensures Grows(s, u, who)
  {
  }

  lemma GrowsSelf(s: State, who: Caller)
    ensures Grows(s, s, who)
  {
  }

  /** Each state grows into the next. */
  ghost predicate Growing(run: seq<State>, who: Caller) {
    && (forall i, j :: 0 <= i && j == i + 1 < |run| ==> Grows(run[i], run[j], who))
    && (forall i :: 0 <= i < |run| ==> who.start <= run[i].since)
  }

  lemma NextGrows(run: seq<State>, who: Caller, j: nat)
    requires IsRun(run, who) && j + 1 < |run|
    ensures Grows(run[j], run[j + 1], who)
  {
    RunInv(run, who, j);
    assert Step(run[j], run[j + 1], who);
    var a :| Does(run[j], run[j + 1], who, a);
    StepGrows(run[j], run[j + 1], who, a);
  }

  lemma RunIsGrowing(run: seq<State>, who: Caller)
    requires IsRun(run, who)
    ensures Growing(run, who)
  {
    forall i, j | 0 <= i && j == i + 1 < |run|
      ensures Grows(run[i], run[j], who)
    {
      NextGrows(run, who, i);
    }
    forall i | 0 <= i < |run|
      ensures who.start <= run[i].since
    {
      RunInv(run, who, i);
    }
  }

  lemma {:induction false} GrowsTo(run: seq<State>, who: Caller, i: nat, j: nat)
    requires Growing(run, who) && i <= j < |run|
    ensures Grows(run[i], run[j], who)
    decreases j
  {
    if i == j {
      GrowsSelf(run[i], who);
    } else {
      GrowsTo(run, who, i, j - 1);
      GrowsIsTransitive(run[i], run[j - 1], run[j], who);
    }
  }

  lemma RunGrows(run: seq<State>, who: Caller, i: nat, j: nat)
    requires IsRun(run, who) && i <= j < |run|
    ensures Grows(run[i], run[j], who)
  {
    RunIsGrowing(run, who);
    GrowsTo(run, who, i, j);
  }

  /** Exactly-once live paging, over every run: the pages handed out so far, one after the other,
      are strictly ordered by (cursor, usage_id), repeat nothing, and are exactly the in-scope
      rows after the starting cursor up to `since`; pages already handed out never change; and no
      row at or below a cursor that was handed out is ever written later. */
  lemma ExactlyOncePaging(run: seq<State>, who: Caller, i: nat, j: nat)
    requires IsRun(run, who) && i <= j < |run|
    ensures Sorted(run[j].got)
    ensures forall r :: r in run[j].got <==>
              InTables(run[j].machines, r) && who.scope(r) && who.start < RowCursor(r) <= run[j].since
    ensures run[i].got <= run[j].got && run[i].since <= run[j].since
    ensures forall r :: InTables(run[j].machines, r) && !InTables(run[i].machines, r) && who.start < run[i].since
              ==> RowCursor(r) > run[i].since
  {
    RunInv(run, who, j);
    RunGrows(run, who, i, j);
  }

  /** A page that is not full is all that is shared below the lowest floor. */
  lemma ShortPageIsAll(s: State, who: Caller, r: UsageRow)
    requires Inv(s, who) && AllAnswered(s) && InSome(Shares(s, who), r) && RowCursor(r) < MinFloor(AnswersNow(s, who))
    requires |Merge(AnswersNow(s, who), s.reader.limit)| < s.reader.limit
    ensures r in Merge(AnswersNow(s, who), s.reader.limit)
  {
    AnswerTables(s, who);
    MergedPageIsComplete(AnswersNow(s, who), Shares(s, who), s.reader.limit);
    FullListIsUnion(Shares(s, who), MinFloor(AnswersNow(s, who)));
  }

  /** A reader is never stuck behind an idle machine: if every floor was asked for with a clock
      reading at or after `ms` and the page is not full, every pending row stamped before `ms` is
      on it. */
  lemma ShortPageReachesTheClock(s: State, who: Caller, ms: nat, r: UsageRow)
    requires Inv(s, who) && AllAnswered(s)
    requires forall i :: 0 <= i < |s.machines| ==> s.reader.progress[i].floor >= (ms - EPOCH_MS) * PER_MS
    requires |Merge(AnswersNow(s, who), s.reader.limit)| < s.reader.limit
    requires InTables(s.machines, r) && Pending(who, s.since)(r) && r.usageId.ms < ms
    ensures r in Merge(AnswersNow(s, who), s.reader.limit)
  {
    FloorsAtLeast(AnswersNow(s, who), (ms - EPOCH_MS) * PER_MS);
    PendingRowsAreShared(s, who, r);
    ShortPageIsAll(s, who, r);
  }

  lemma {:induction false} FloorsAtLeast(answers: seq<LocalAnswer>, f: int)
    requires answers != [] && forall i :: 0 <= i < |answers| ==> answers[i].floor >= f
    ensures MinFloor(answers) >= f
  {
    if |answers| > 1 {
      FloorsAtLeast(answers[..|answers| - 1], f);
    }
  }
}
