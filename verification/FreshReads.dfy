/** The api's reader end to end: rows recorded on the machines, copied by the passes, read page by
    page, each read behind a complete ingest barrier. */
module FreshReads {
  import opened Wrappers
  import opened UsageIds
  import opened Rows
  import opened Ledger
  import opened Machines
  import opened Gateway
  import P = ApiPaging
  import R = Replication

  datatype State = State(rep: R.State, since: int, got: seq<UsageRow>)

  /** A step of machines, passes and callers; or a read by the caller with waiter `w`. */
  datatype Action = Rep(step: R.Action) | Read(limit: nat, w: nat)

  /** What the reader sees of a state. */
  function View(s: State): P.State {
    P.State(RowsIn(s.rep.db.log), s.since, s.got)
  }

  /** The waiter's pass is over, failed nowhere and polled every machine. */
  ghost predicate Behind(s: R.State, w: nat) {
    && w < |s.waiters| && s.waiters[w].on.OnPass? && s.waiters[w].on.pass < |s.passes|
    && s.passes[s.waiters[w].on.pass].Complete()
    && forall m :: 0 <= m < |s.machines| ==> m in s.passes[s.waiters[w].on.pass].targets
  }

  ghost predicate Does(s: State, t: State, who: P.Caller, a: Action) {
    match a
    case Rep(step) => R.Does(s.rep, t.rep, step) && t == s.(rep := t.rep)
    case Read(limit, w) => Behind(s.rep, w) && t.rep == s.rep && P.Does(View(s), View(t), who, P.Read(limit))
  }

  ghost predicate IsRun(run: seq<State>, acts: seq<Action>, who: P.Caller) {
    && |run| == |acts| + 1 && R.Init(run[0].rep) && run[0].since == who.start && run[0].got == []
    && forall i, j {:trigger Does(run[i], run[j], who, acts[i])} ::
         0 <= i < |acts| && j == i + 1 ==> Does(run[i], run[j], who, acts[i])
  }

  // ---------------------------------------------------------------------------
  // Logs and keys along a run
  // ---------------------------------------------------------------------------

  /** Stored rows have a key. */
  ghost predicate LogHasKeys(db: Db) {
    forall l :: l in db.log ==> l.row.keyId in db.keys
  }

  lemma StoringGrowsDb(db: Db, rows: seq<UsageRow>, price: UsageRow -> Option<int>)
    ensures var t := IngestPage(db, rows, price); db.log <= t.log && db.keys.Keys == t.keys.Keys
  {
  }

  /** Logs are only appended to; keys stay; and a key appears only while no row names it. */
  lemma StepGrowsDb(s: R.State, t: R.State, a: R.Action)
    requires R.Does(s, t, a)
    ensures s.db.log <= t.db.log && s.db.keys.Keys <= t.db.keys.Keys
    ensures forall r :: InTables(s.machines, r) && r.keyId in t.db.keys ==> r.keyId in s.db.keys
  {
    match a
    case Storing(p, price) => StoringGrowsDb(s.db, s.passes[p].work.page, price);
    case KeyChange(op) =>
    case _ => assert t.db == s.db;
  }

  lemma StepKeepsLogKeys(s: R.State, t: R.State, a: R.Action)
    requires R.Does(s, t, a) && LogHasKeys(s.db)
    ensures LogHasKeys(t.db)
  {
    StepGrowsDb(s, t, a);
    if a.Storing? {
      NewRowsAreNew(IdsOf(s.db.log), s.db.keys, s.passes[a.pass].work.page, a.price);
    }
  }

  ghost predicate Inv(s: State) {
    R.Inv(s.rep) && LogHasKeys(s.rep.db)
  }

  lemma StepKeepsInv(s: State, t: State, who: P.Caller, a: Action)
    requires Inv(s) && Does(s, t, who, a)
    ensures Inv(t)
  {
    if a.Rep? {
      R.StepKeepsInv(s.rep, t.rep, a.step);
      StepKeepsLogKeys(s.rep, t.rep, a.step);
    }
  }

  lemma InitInv(s: State)
    requires R.Init(s.rep)
    ensures Inv(s)
  {
  }

  lemma NextInv(run: seq<State>, acts: seq<Action>, who: P.Caller, i: nat)
    requires IsRun(run, acts, who) && i < |acts| && Inv(run[i])
    ensures Inv(run[i + 1])
  {
    assert Does(run[i], run[i + 1], who, acts[i]);
    StepKeepsInv(run[i], run[i + 1], who, acts[i]);
  }

  lemma {:induction false} RunInv(run: seq<State>, acts: seq<Action>, who: P.Caller, i: nat)
    requires IsRun(run, acts, who) && i < |run|
    ensures Inv(run[i])
  {
    if i == 0 {
      InitInv(run[0]);
    } else {
      RunInv(run, acts, who, i - 1);
      NextInv(run, acts, who, i - 1);
    }
  }

  lemma DistinctLogRows(s: State)
    requires Inv(s)
    ensures DistinctIds(RowsIn(s.rep.db.log))
  {
  }

  // ---------------------------------------------------------------------------
  // The run as the reader sees it
  // ---------------------------------------------------------------------------

  function ViewOf(s: State, t: State, a: Action): P.Action {
    if a.Read? then P.Read(a.limit)
    else if |s.rep.db.log| <= |t.rep.db.log| then P.Ingest(RowsIn(t.rep.db.log[|s.rep.db.log|..]))
    else P.Ingest([])
  }

  function Views(run: seq<State>): seq<P.State> {
    seq(|run|, i requires 0 <= i < |run| => View(run[i]))
  }

  function ViewActs(run: seq<State>, acts: seq<Action>): seq<P.Action>
    requires |run| == |acts| + 1
  {
    seq(|acts|, i requires 0 <= i < |acts| => ViewOf(run[i], run[i + 1], acts[i]))
  }

  lemma LogRowsOfGrown(log: seq<LogRow>, more: seq<LogRow>)
    requires log <= more
    ensures RowsIn(more) == RowsIn(log) + RowsIn(more[|log|..])
  {
  }

  lemma StepIsViewed(s: State, t: State, who: P.Caller, a: Action)
    requires Inv(t) && Does(s, t, who, a)
    ensures P.Does(View(s), View(t), who, ViewOf(s, t, a))
  {
    if a.Rep? {
      StepGrowsDb(s.rep, t.rep, a.step);
      LogRowsOfGrown(s.rep.db.log, t.rep.db.log);
      DistinctLogRows(t);
    }
  }

  lemma NextIsViewed(run: seq<State>, acts: seq<Action>, who: P.Caller, i: nat)
    requires IsRun(run, acts, who) && i < |acts|
    ensures P.Does(View(run[i]), View(run[i + 1]), who, ViewOf(run[i], run[i + 1], acts[i]))
  {
    RunInv(run, acts, who, i + 1);
    assert Does(run[i], run[i + 1], who, acts[i]);
    StepIsViewed(run[i], run[i + 1], who, acts[i]);
  }

  lemma RunIsViewed(run: seq<State>, acts: seq<Action>, who: P.Caller)
    requires IsRun(run, acts, who)
    ensures P.IsRun(Views(run), ViewActs(run, acts), who)
  {
    assert View(run[0]) == P.State([], who.start, []);
    forall i, j | 0 <= i < |acts| && j == i + 1
      ensures P.Does(Views(run)[i], Views(run)[j], who, ViewActs(run, acts)[i])
    {
      NextIsViewed(run, acts, who, i);
    }
  }

  // ---------------------------------------------------------------------------
  // Machines along a run
  // ---------------------------------------------------------------------------

  /** Machine `m` only appends, and nothing it appends is below what it could have written next. */
  ghost predicate Ran(m: Machine, n: Machine) {
    && m.table <= n.table && m.clock.Next() <= n.clock.Next()
    && forall k :: |m.table| <= k < |n.table| ==> RowCursor(n.table[k]) >= NextCursor(m.clock)
  }

  ghost predicate AllRan(ms: seq<Machine>, ns: seq<Machine>) {
    |ms| == |ns| && forall m :: 0 <= m < |ms| ==> Ran(ms[m], ns[m])
  }

  lemma RanOn(a: Machine, b: Machine, c: Machine)
    requires Ran(a, b) && Ran(b, c)
    ensures Ran(a, c)
  {
  }

  lemma RecordRan(m: Machine, now: int, row: UsageRow)
    requires TableOk(m.table, m.clock) && Stamp(row.usageId) == IdStamp(Tick(m.clock, now))
    ensures Ran(m, m.(clock := Tick(m.clock, now), table := m.table + [row]))
  {
    RecordedTableOk(m.table, m.clock, now, row);
  }

  lemma RecordRuns(ms: seq<Machine>, i: nat, now: int, row: UsageRow)
    requires MachinesOk(ms) && CanRecord(ms, i, now, row)
    ensures AllRan(ms, Recorded(ms, i, now, row))
  {
    RecordRan(ms[i], now, row);
  }

  lemma ClockRuns(ms: seq<Machine>, i: nat, call: Call)
    requires MachinesOk(ms) && i < |ms|
    ensures AllRan(ms, Clocked(ms, i, call))
  {
    ClockingKeepsMachines(ms, i, call);
  }

  lemma StepRuns(s: R.State, t: R.State, a: R.Action)
    requires MachinesOk(s.machines) && R.Does(s, t, a)
    ensures AllRan(s.machines, t.machines)
  {
    match a
    case Recording(i, now, row) => RecordRuns(s.machines, i, now, row);
    case Clocking(i, call) => ClockRuns(s.machines, i, call);
    case _ => assert t.machines == s.machines;
  }

  lemma NextRuns(run: seq<State>, acts: seq<Action>, who: P.Caller, i: nat)
    requires IsRun(run, acts, who) && i < |acts|
    ensures AllRan(run[i].rep.machines, run[i + 1].rep.machines)
  {
    RunInv(run, acts, who, i);
    assert Does(run[i], run[i + 1], who, acts[i]);
    if acts[i].Rep? {
      StepRuns(run[i].rep, run[i + 1].rep, acts[i].step);
    }
  }

  lemma AllRanOn(a: seq<Machine>, b: seq<Machine>, c: seq<Machine>)
    requires AllRan(a, b) && AllRan(b, c)
    ensures AllRan(a, c)
  {
    forall m | 0 <= m < |a|
      ensures Ran(a[m], c[m])
    {
      RanOn(a[m], b[m], c[m]);
    }
  }

  lemma {:induction false} AllRanTo(mss: seq<seq<Machine>>, i: nat, j: nat)
    requires i <= j < |mss| && forall a, b :: 0 <= a && b == a + 1 < |mss| ==> AllRan(mss[a], mss[b])
    ensures AllRan(mss[i], mss[j])
    decreases j
  {
    if i < j {
      AllRanTo(mss, i, j - 1);
      AllRanOn(mss[i], mss[j - 1], mss[j]);
    }
  }

  lemma RunRuns(run: seq<State>, acts: seq<Action>, who: P.Caller, i: nat, j: nat)
    requires IsRun(run, acts, who) && i <= j < |run|
    ensures AllRan(run[i].rep.machines, run[j].rep.machines)
  {
    var mss := seq(|run|, k requires 0 <= k < |run| => run[k].rep.machines);
    forall a, b | 0 <= a && b == a + 1 < |run|
      ensures AllRan(mss[a], mss[b])
    {
      NextRuns(run, acts, who, a);
    }
    AllRanTo(mss, i, j);
  }

  // ---------------------------------------------------------------------------
  // Reads and the calls they waited on
  // ---------------------------------------------------------------------------

  /** Step `x` is the call that made waiter `w`. */
  ghost predicate CalledAt(run: seq<State>, x: nat, w: nat) {
    x + 1 < |run| && |run[x].rep.waiters| == w < |run[x + 1].rep.waiters|
  }

  /** A step keeps the waiters and adds at most one, which remembers how long the tables are. */
  ghost predicate Joins(s: R.State, t: R.State) {
    forall w :: 0 <= w < |t.waiters| ==>
      if w < |s.waiters| then t.waiters[w].seen == s.waiters[w].seen
      else w == |s.waiters| && t.waiters[w].seen == R.Lengths(s.machines)
  }

  lemma StepJoins(s: R.State, t: R.State, a: R.Action)
    requires R.Does(s, t, a)
    ensures Joins(s, t)
  {
  }

  lemma RunJoins(run: seq<State>, acts: seq<Action>, who: P.Caller, i: nat)
    requires IsRun(run, acts, who) && i < |acts|
    ensures Joins(run[i].rep, run[i + 1].rep)
  {
    assert Does(run[i], run[i + 1], who, acts[i]);
    if acts[i].Rep? {
      StepJoins(run[i].rep, run[i + 1].rep, acts[i].step);
    }
  }

  /** Every waiter was made by a call. */
  lemma {:induction false} CallOf(run: seq<State>, acts: seq<Action>, who: P.Caller, n: nat, w: nat) returns (x: nat)
    requires IsRun(run, acts, who) && n < |run| && w < |run[n].rep.waiters|
    ensures x < n && CalledAt(run, x, w) && run[n].rep.waiters[w].seen == R.Lengths(run[x].rep.machines)
    decreases n
  {
    assert n > 0;
    RunJoins(run, acts, who, n - 1);
    if w < |run[n - 1].rep.waiters| {
      x := CallOf(run, acts, who, n - 1, w);
    } else {
      x := n - 1;
      assert run[x + 1].rep.waiters[w].seen == R.Lengths(run[x].rep.machines);
    }
  }

  lemma BehindAt(s: R.State, was: seq<Machine>, w: nat, m: nat, r: UsageRow)
    requires R.Inv(s) && AllRan(was, s.machines) && Behind(s, w) && s.waiters[w].seen == R.Lengths(was)
    requires m < |was| && r in was[m].table && r.keyId in s.db.keys
    ensures r.usageId in IdsOf(s.db.log)
  {
    assert Ran(was[m], s.machines[m]);
    assert s.machines[m].table[..s.waiters[w].seen[m]] == was[m].table;
    R.BarrierAt(s, s.waiters[w], m, r);
  }

  /** Behind a barrier, every row recorded before the call whose key exists is stored. */
  lemma BehindBarrier(run: seq<State>, acts: seq<Action>, who: P.Caller, n: nat, w: nat, x: nat, r: UsageRow)
    requires IsRun(run, acts, who) && x < n < |run| && Behind(run[n].rep, w)
    requires run[n].rep.waiters[w].seen == R.Lengths(run[x].rep.machines)
    requires InTables(run[x].rep.machines, r) && r.keyId in run[n].rep.db.keys
    ensures r.usageId in IdsOf(run[n].rep.db.log)
  {
    var m :| 0 <= m < |run[x].rep.machines| && r in run[x].rep.machines[m].table;
    RunInv(run, acts, who, n);
    RunRuns(run, acts, who, x, n);
    BehindAt(run[n].rep, run[x].rep.machines, w, m, r);
  }

  lemma NewIsNext(m: Machine, n: Machine, r: UsageRow)
    requires Ran(m, n) && r in n.table && r !in m.table
    ensures NextCursor(m.clock) <= RowCursor(r)
  {
    var k := IndexOf(n.table, r);
    assert forall j :: 0 <= j < |m.table| ==> n.table[j] in m.table;
  }

  /** A row recorded after a state was written at or past what its machine could then write next. */
  lemma RecordedSince(run: seq<State>, acts: seq<Action>, who: P.Caller, x: nat, n: nat, r: UsageRow) returns (m: nat)
    requires IsRun(run, acts, who) && x <= n < |run|
    requires InTables(run[n].rep.machines, r) && !InTables(run[x].rep.machines, r)
    ensures m < |run[x].rep.machines| == |run[n].rep.machines| && r in run[n].rep.machines[m].table
    ensures NextCursor(run[x].rep.machines[m].clock) <= RowCursor(r)
  {
    RunRuns(run, acts, who, x, n);
    m :| 0 <= m < |run[n].rep.machines| && r in run[n].rep.machines[m].table;
    NewIsNext(run[x].rep.machines[m], run[n].rep.machines[m], r);
  }

  lemma StillInTables(ms: seq<Machine>, ns: seq<Machine>, r: UsageRow)
    requires AllRan(ms, ns) && InTables(ms, r)
    ensures InTables(ns, r)
  {
    var m :| 0 <= m < |ms| && r in ms[m].table;
    assert Ran(ms[m], ns[m]);
    assert r in ns[m].table;
  }

  /** A recorded row's key, if it exists later, existed already; and what is stored stays stored. */
  lemma {:induction false} DbSince(run: seq<State>, acts: seq<Action>, who: P.Caller, i: nat, n: nat, r: UsageRow)
    requires IsRun(run, acts, who) && i <= n < |run| && InTables(run[i].rep.machines, r)
    ensures r.keyId in run[n].rep.db.keys ==> r.keyId in run[i].rep.db.keys
    ensures run[i].rep.db.log <= run[n].rep.db.log
    decreases n
  {
    if i < n {
      DbSince(run, acts, who, i, n - 1, r);
      RunRuns(run, acts, who, i, n - 1);
      StillInTables(run[i].rep.machines, run[n - 1].rep.machines, r);
      NextDb(run, acts, who, n - 1, r);
    }
  }

  lemma NextDb(run: seq<State>, acts: seq<Action>, who: P.Caller, i: nat, r: UsageRow)
    requires IsRun(run, acts, who) && i < |acts| && InTables(run[i].rep.machines, r)
    ensures r.keyId in run[i + 1].rep.db.keys ==> r.keyId in run[i].rep.db.keys
    ensures run[i].rep.db.log <= run[i + 1].rep.db.log
  {
    assert Does(run[i], run[i + 1], who, acts[i]);
    if acts[i].Rep? {
      StepGrowsDb(run[i].rep, run[i + 1].rep, acts[i].step);
    }
  }

  lemma StoredIsRecorded(s: State, r: UsageRow)
    requires Inv(s) && r in RowsIn(s.rep.db.log)
    ensures InTables(s.rep.machines, r) && r.keyId in s.rep.db.keys
  {
    var log := s.rep.db.log;
    var k :| 0 <= k < |log| && RowsIn(log)[k] == r;
    assert log[k] in log;
  }

  /** An id names one row. */
  lemma IdIsStored(s: State, r: UsageRow)
    requires Inv(s) && InTables(s.rep.machines, r) && r.usageId in IdsOf(s.rep.db.log)
    ensures r in RowsIn(s.rep.db.log)
  {
    var log := s.rep.db.log;
    var k :| 0 <= k < |log| && log[k].row.usageId == r.usageId;
    assert log[k] in log;
    assert RowsIn(log)[k] == log[k].row;
  }

  /** A row with a key that was recorded before the call of a read's barrier is stored at the read, and
      from then on. */
  lemma RecordedBeforeIsStored(run: seq<State>, acts: seq<Action>, who: P.Caller, i: nat, w: nat, x: nat, n: nat,
                               r: UsageRow)
    requires IsRun(run, acts, who) && x < i <= n < |run| && Behind(run[i].rep, w)
    requires run[i].rep.waiters[w].seen == R.Lengths(run[x].rep.machines)
    requires InTables(run[x].rep.machines, r) && r.keyId in run[n].rep.db.keys
    ensures r in RowsIn(run[i].rep.db.log) && r in RowsIn(run[n].rep.db.log)
  {
    RunRuns(run, acts, who, x, i);
    StillInTables(run[x].rep.machines, run[i].rep.machines, r);
    DbSince(run, acts, who, i, n, r);
    BehindBarrier(run, acts, who, i, w, x, r);
    RunInv(run, acts, who, i);
    IdIsStored(run[i], r);
    LogRowsOfGrown(run[i].rep.db.log, run[n].rep.db.log);
  }

  /** Only reads move the cursor, and they wait for a barrier. */
  lemma ReadsMove(run: seq<State>, acts: seq<Action>, who: P.Caller, i: nat)
    requires IsRun(run, acts, who) && i < |acts|
    ensures if acts[i].Read? then Behind(run[i].rep, acts[i].w) else run[i + 1].since == run[i].since
  {
    assert Does(run[i], run[i + 1], who, acts[i]);
  }

  /** The read that handed out the cursor of a state. */
  lemma {:induction false} SinceFrom(run: seq<State>, acts: seq<Action>, who: P.Caller, n: nat) returns (i: nat)
    requires IsRun(run, acts, who) && n < |run| && run[n].since != who.start
    ensures i < n && acts[i].Read? && run[i + 1].since == run[n].since && Behind(run[i].rep, acts[i].w)
    decreases n
  {
    assert n > 0;
    ReadsMove(run, acts, who, n - 1);
    if acts[n - 1].Read? {
      i := n - 1;
    } else {
      i := SinceFrom(run, acts, who, n - 1);
    }
  }

  // ---------------------------------------------------------------------------
  // Main results
  // ---------------------------------------------------------------------------

  lemma ReadAnswers(s: State, t: State, who: P.Caller, a: Action, r: UsageRow)
    requires Inv(s) && Does(s, t, who, a) && a.Read?
    requires r in RowsIn(s.rep.db.log) && who.scope(r) && RowCursor(r) > s.since
    ensures r in t.got || (|t.got| >= |s.got| + a.limit && RowCursor(r) > t.since)
  {
    DistinctLogRows(s);
    P.ReadAnswers(View(s), View(t), who, a.limit, r);
  }

  /** Fresh by construction: a read's answer has every in-scope row with a key that was recorded before
      the call it waited on and lies past `since`, unless the page is full and ends before it. */
  lemma AnswersAreFresh(run: seq<State>, acts: seq<Action>, who: P.Caller, i: nat, r: UsageRow) returns (x: nat)
    requires IsRun(run, acts, who) && i < |acts| && acts[i].Read?
    ensures x < i && CalledAt(run, x, acts[i].w)
    ensures InTables(run[x].rep.machines, r) && r.keyId in run[i].rep.db.keys && who.scope(r)
            && RowCursor(r) > run[i].since ==>
              || r in run[i + 1].got
              || (|run[i + 1].got| >= |run[i].got| + acts[i].limit && RowCursor(r) > run[i + 1].since)
  {
    ReadsMove(run, acts, who, i);
    x := CallOf(run, acts, who, i, acts[i].w);
    if InTables(run[x].rep.machines, r) && r.keyId in run[i].rep.db.keys && who.scope(r)
       && RowCursor(r) > run[i].since {
      RecordedBeforeIsStored(run, acts, who, i, acts[i].w, x, i, r);
      RunInv(run, acts, who, i);
      assert Does(run[i], run[i + 1], who, acts[i]);
      ReadAnswers(run[i], run[i + 1], who, acts[i], r);
    }
  }

  /** A row that reaches the log late, after a cursor at or past it was handed out, was recorded after
      the call the read of that cursor waited on, on a machine whose clock at that call was still at
      or below the row, and so at or below the cursor. */
  lemma LateRowsAreNew(run: seq<State>, acts: seq<Action>, who: P.Caller, n: nat, r: UsageRow)
    returns (i: nat, x: nat, m: nat)
    requires IsRun(run, acts, who) && n < |acts| && who.start < RowCursor(r) <= run[n].since
    requires r in RowsIn(run[n + 1].rep.db.log) && r !in RowsIn(run[n].rep.db.log)
    ensures x < i < n && acts[i].Read? && run[i + 1].since == run[n].since && CalledAt(run, x, acts[i].w)
    ensures !InTables(run[x].rep.machines, r) && m < |run[x].rep.machines|
    ensures NextCursor(run[x].rep.machines[m].clock) <= RowCursor(r) <= run[i + 1].since
  {
    i := SinceFrom(run, acts, who, n);
    x := CallOf(run, acts, who, i, acts[i].w);
    RunInv(run, acts, who, n + 1);
    StoredIsRecorded(run[n + 1], r);
    if InTables(run[x].rep.machines, r) {
      StoredByThen(run, acts, who, i, x, n, r);
    }
    m := RecordedSince(run, acts, who, x, n + 1, r);
  }

  lemma StoredByThen(run: seq<State>, acts: seq<Action>, who: P.Caller, i: nat, x: nat, n: nat, r: UsageRow)
    requires IsRun(run, acts, who) && x < i < n < |acts| && acts[i].Read? && Behind(run[i].rep, acts[i].w)
    requires run[i].rep.waiters[acts[i].w].seen == R.Lengths(run[x].rep.machines)
    requires InTables(run[x].rep.machines, r) && r.keyId in run[n + 1].rep.db.keys
    ensures r in RowsIn(run[n].rep.db.log)
  {
    RecordedBeforeIsStored(run, acts, who, i, acts[i].w, x, n + 1, r);
    RunRuns(run, acts, who, x, i);
    StillInTables(run[x].rep.machines, run[i].rep.machines, r);
    DbSince(run, acts, who, i, n, r);
    LogRowsOfGrown(run[i].rep.db.log, run[n].rep.db.log);
  }

  /** No read hands out a cursor that some machine had not passed at the call the read waited on. */
  ghost predicate Fresh(run: seq<State>, acts: seq<Action>, who: P.Caller)
    requires |run| == |acts| + 1
  {
    forall i, x, m ::
      && 0 <= x < i < |acts| && acts[i].Read? && CalledAt(run, x, acts[i].w) && 0 <= m < |run[x].rep.machines|
      && run[i + 1].since != who.start
      ==> run[i + 1].since < NextCursor(run[x].rep.machines[m].clock)
  }

  lemma NoneCameLate(run: seq<State>, acts: seq<Action>, who: P.Caller, n: nat, r: UsageRow)
    requires IsRun(run, acts, who) && n < |run| && Fresh(run, acts, who) && who.start < RowCursor(r)
    ensures !P.CameLate(Views(run), ViewActs(run, acts), n, r)
  {
    if P.CameLate(Views(run), ViewActs(run, acts), n, r) {
      var k :| 0 <= k < n && ViewActs(run, acts)[k].Ingest? && r in ViewActs(run, acts)[k].rows
               && RowCursor(r) <= Views(run)[k].since;
      IngestedAt(run, acts, who, k, r);
      var i, x, m := LateRowsAreNew(run, acts, who, k, r);
      assert false;
    }
  }

  lemma IngestedAt(run: seq<State>, acts: seq<Action>, who: P.Caller, k: nat, r: UsageRow)
    requires IsRun(run, acts, who) && k < |acts|
    requires ViewActs(run, acts)[k].Ingest? && r in ViewActs(run, acts)[k].rows
    ensures r in RowsIn(run[k + 1].rep.db.log) && r !in RowsIn(run[k].rep.db.log)
  {
    RunInv(run, acts, who, k + 1);
    assert Does(run[k], run[k + 1], who, acts[k]);
    StepGrowsDb(run[k].rep, run[k + 1].rep, acts[k].step);
    var more := run[k + 1].rep.db.log[|run[k].rep.db.log|..];
    LogRowsOfGrown(run[k].rep.db.log, run[k + 1].rep.db.log);
    DistinctLogRows(run[k + 1]);
    P.NewIsNotOld(RowsIn(run[k].rep.db.log), RowsIn(more), r);
  }

  /** The api's reader is exact end to end: when no read hands out a cursor some machine had not passed
      at the call it waited on, the rows handed out are, in every state, strictly ordered and exactly
      the in-scope rows with a key recorded on any machine, after the start and up to the cursor. */
  lemma FreshReadsAreExact(run: seq<State>, acts: seq<Action>, who: P.Caller, n: nat)
    requires IsRun(run, acts, who) && n < |run| && Fresh(run, acts, who)
    ensures Sorted(run[n].got)
    ensures forall r :: r in run[n].got <==>
              && InTables(run[n].rep.machines, r) && r.keyId in run[n].rep.db.keys
              && who.scope(r) && who.start < RowCursor(r) <= run[n].since
  {
    RunIsViewed(run, acts, who);
    P.PagesOfAGrowingTable(Views(run), ViewActs(run, acts), who, n);
    forall r
      ensures r in run[n].got <==>
                && InTables(run[n].rep.machines, r) && r.keyId in run[n].rep.db.keys
                && who.scope(r) && who.start < RowCursor(r) <= run[n].since
    {
      assert r in Views(run)[n].got <==> P.IsGot(Views(run), ViewActs(run, acts), who, n, r);
      if who.start < RowCursor(r) <= run[n].since {
        NoneCameLate(run, acts, who, n, r);
        RecordedIsStored(run, acts, who, n, r);
      }
    }
  }

  /** Up to the cursor the log is complete. */
  lemma RecordedIsStored(run: seq<State>, acts: seq<Action>, who: P.Caller, n: nat, r: UsageRow)
    requires IsRun(run, acts, who) && n < |run| && Fresh(run, acts, who) && who.start < RowCursor(r) <= run[n].since
    ensures r in RowsIn(run[n].rep.db.log) <==> InTables(run[n].rep.machines, r) && r.keyId in run[n].rep.db.keys
  {
    RunInv(run, acts, who, n);
    if r in RowsIn(run[n].rep.db.log) {
      StoredIsRecorded(run[n], r);
    } else if InTables(run[n].rep.machines, r) && r.keyId in run[n].rep.db.keys {
      var i := SinceFrom(run, acts, who, n);
      var x := CallOf(run, acts, who, i, acts[i].w);
      if InTables(run[x].rep.machines, r) {
        RecordedBeforeIsStored(run, acts, who, i, acts[i].w, x, n, r);
      } else {
        var m := RecordedSince(run, acts, who, x, n, r);
        assert false;
      }
    }
  }
}
