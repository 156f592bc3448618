/** Any number of pollers on any number of api machines copying every proxy machine's rows, in any
    interleaving with writes, key changes, failures and restarts; and the ingest barrier readers
    wait on. A restarted api is a new entry of `apis`; a dead one takes no further step. */
module Replication {
  import opened Wrappers
  import opened UsageIds
  import opened Rows
  import opened Ledger
  import opened Machines
  import opened Gateway
  import opened UsagePoller

  /** What a pass is doing about its current target: nothing yet, between pages, or holding a
      fetched page that is not stored yet. */
  datatype Work = Resting | Paging(cursor: string) | Loaded(cursor: string, page: seq<UsageRow>)

  /** One `pollAll` of an api process: `snap` is how many rows each machine had when it started (a ghost of the
      start time), `targets` the machines discovery listed, `at` the one being polled. */
  datatype Pass = Pass(api: nat, snap: seq<nat>, targets: seq<nat>, at: nat, work: Work, failed: set<nat>,
                       blind: bool)
  {
    predicate Done() {
      at == |targets|
    }

    /** The pass resolves with an empty list of failed machines. */
    predicate Complete() {
      Done() && failed == {} && !blind
    }
  }

  /** `running` and `queued` of one api process; `queued` holds the pass it waits for. */
  datatype Api = Api(running: Option<nat>, queued: Option<nat>)

  /** A caller of `ingestNow`: how many rows each machine had and how many passes had started when
      it called, and which promise it got. */
  datatype Promise = OnQueue(api: nat) | OnPass(pass: nat)
  datatype Waiter = Waiter(seen: seq<nat>, from: nat, on: Promise)

  datatype State = State(machines: seq<Machine>, db: Db, passes: seq<Pass>, apis: seq<Api>, waiters: seq<Waiter>)

  function Lengths(ms: seq<Machine>): seq<nat> {
    seq(|ms|, i requires 0 <= i < |ms| => |ms[i].table|)
  }

  ghost predicate UpTo(a: seq<nat>, b: seq<nat>) {
    |a| == |b| && forall i :: 0 <= i < |a| ==> a[i] <= b[i]
  }

  // ---------------------------------------------------------------------------
  // What is stored
  // ---------------------------------------------------------------------------

  ghost predicate Stored(db: Db, r: UsageRow) {
    r.keyId in db.keys ==> r.usageId in IdsOf(db.log)
  }

  /** `newestStored`: the largest id stored from a machine. */
  ghost predicate IsNewest(log: seq<LogRow>, name: string, u: UsageId) {
    && (exists l :: l in log && l.row.machineId == name && l.row.usageId == u)
    && (forall l :: l in log && l.row.machineId == name ==> !Less(u, l.row.usageId))
  }

  ghost predicate StartCursor(log: seq<LogRow>, name: string, cursor: string) {
    || (cursor == WithOverlap("0") && forall l :: l in log ==> l.row.machineId != name)
    || (exists u :: IsNewest(log, name, u) && OverlapOf(u, cursor))
  }

  ghost predicate OverlapOf(u: UsageId, cursor: string) {
    && |Print(u)| >= 13 && AllDigits((Print(u)[..8] + Print(u)[9..])[..12])
    && cursor == WithOverlap(Print(u))
  }

  /** Prefix-closed replication: every row of the machine up to the newest stored one is stored. */
  ghost predicate PrefixClosed(m: Machine, db: Db) {
    forall r, l :: r in m.table && l in db.log && l.row.machineId == m.name && !Less(l.row.usageId, r.usageId)
      ==> Stored(db, r)
  }

  /** Everything the machine holds up to a page cursor is stored. */
  ghost predicate StoredTo(m: Machine, db: Db, cursor: string) {
    forall r :: r in m.table && !LexLess(cursor, Print(r.usageId)) ==> Stored(db, r)
  }

  ghost predicate StoredFirst(m: Machine, db: Db, n: nat) {
    n <= |m.table| && forall r :: r in m.table[..n] ==> Stored(db, r)
  }

  /** No later id can be at or below the cursor. */
  ghost predicate Passed(m: Machine, cursor: string) {
    forall u: UsageId :: Stamp(u) >= m.clock.Next() ==> LexLess(cursor, Print(u))
  }

  /** A page fetched when the machine had `n` rows. */
  ghost predicate FetchedAt(m: Machine, cursor: string, page: seq<UsageRow>, n: nat) {
    n <= |m.table| && page == Fetch(m.table[..n], cursor)
  }

  // ---------------------------------------------------------------------------
  // Steps
  // ---------------------------------------------------------------------------

  datatype Action =
    | Recording(i: nat, now: int, row: UsageRow)
    | Clocking(i: nat, call: Call)
    | KeyChange(op: Op)
    | Calling(api: nat, targets: seq<nat>, blind: bool)
    | Queueing(api: nat)
    | Ticking(api: nat, targets: seq<nat>, blind: bool)
    | Settling(api: nat, pass: nat)
    | Firing(api: nat, targets: seq<nat>, blind: bool)
    | Booting
    | Resuming(pass: nat, cursor: string)
    | Fetching(pass: nat)
    | Storing(pass: nat, price: UsageRow -> Option<int>)
    | Failing(pass: nat)

  /** A new pass: discovery lists machines, or fails and the pass is over at once. */
  function NewPass(ms: seq<Machine>, api: nat, targets: seq<nat>, blind: bool): Pass {
    Pass(api, Lengths(ms), if blind then [] else targets, 0, Resting, {}, blind)
  }

  function NextTarget(p: Pass): Pass {
    p.(at := p.at + 1, work := Resting)
  }

  function SetPass(s: State, p: nat, pass: Pass): State
    requires p < |s.passes|
  {
    s.(passes := s.passes[p := pass])
  }

  ghost predicate Listed(targets: seq<nat>, n: nat) {
    forall a :: 0 <= a < |targets| ==> targets[a] < n
  }

  ghost predicate Live(s: State, p: nat) {
    p < |s.passes| && s.passes[p].at < |s.passes[p].targets| && s.passes[p].targets[s.passes[p].at] < |s.machines|
  }

  function Target(s: State, p: nat): nat
    requires p < |s.passes| && s.passes[p].at < |s.passes[p].targets|
  {
    s.passes[p].targets[s.passes[p].at]
  }

  /** After a page: on to the next one, or to the next machine when the page was short. */
  function AfterPage(p: Pass, page: seq<UsageRow>): Pass {
    if |page| < PAGE_LIMIT then NextTarget(p) else p.(work := Paging(Print(page[|page| - 1].usageId)))
  }

  /** The waiters of a queue once its pass has started. */
  function Moved(ws: seq<Waiter>, api: nat, pass: nat): seq<Waiter> {
    seq(|ws|, i requires 0 <= i < |ws| => if ws[i].on == OnQueue(api) then ws[i].(on := OnPass(pass)) else ws[i])
  }

  ghost predicate Record(s: State, t: State, i: nat, now: int, row: UsageRow) {
    CanRecord(s.machines, i, now, row) && t == s.(machines := Recorded(s.machines, i, now, row))
  }

  ghost predicate ClockOnly(s: State, t: State, i: nat, call: Call) {
    i < |s.machines| && t == s.(machines := Clocked(s.machines, i, call))
  }

  /** Any other transaction on the keys. A new key's id is fresh: no row anywhere names it. */
  ghost predicate ChangeKeys(s: State, t: State, op: Op) {
    && !op.Ingest? && Enabled(s.db, op) && t == s.(db := Apply(s.db, op))
    && (op.NewKey? ==> forall r :: InTables(s.machines, r) ==> r.keyId != op.id)
  }

  /** `ingestNow` while nothing runs: a pass starts at once. */
  ghost predicate CallIdle(s: State, t: State, api: nat, targets: seq<nat>, blind: bool) {
    && api < |s.apis| && s.apis[api].running.None? && Listed(targets, |s.machines|)
    && t == s.(passes := s.passes + [NewPass(s.machines, api, targets, blind)],
               apis := s.apis[api := s.apis[api].(running := Some(|s.passes|))],
               waiters := s.waiters + [Waiter(Lengths(s.machines), |s.passes|, OnPass(|s.passes|))])
  }

  /** `ingestNow` while a pass runs: the caller joins the queue, creating it if needed. */
  ghost predicate CallBusy(s: State, t: State, api: nat) {
    && api < |s.apis| && s.apis[api].running.Some?
    && t == s.(apis := if s.apis[api].queued.Some? then s.apis
                       else s.apis[api := s.apis[api].(queued := s.apis[api].running)],
               waiters := s.waiters + [Waiter(Lengths(s.machines), |s.passes|, OnQueue(api))])
  }

  /** The interval timer. */
  ghost predicate TimerTick(s: State, t: State, api: nat, targets: seq<nat>, blind: bool) {
    && api < |s.apis| && s.apis[api].running.None? && Listed(targets, |s.machines|)
    && t == s.(passes := s.passes + [NewPass(s.machines, api, targets, blind)],
               apis := s.apis[api := s.apis[api].(running := Some(|s.passes|))])
  }

  /** A finished pass clears `running` if that is still the pass. */
  ghost predicate Settle(s: State, t: State, api: nat, p: nat) {
    && api < |s.apis| && p < |s.passes| && s.passes[p].Done() && s.apis[api].running == Some(p)
    && t == s.(apis := s.apis[api := s.apis[api].(running := None)])
  }

  /** The queue's continuation: a pass starts for everyone waiting on the queue. A caller may have
      started another pass since the awaited one settled, so two passes can overlap. */
  ghost predicate Fire(s: State, t: State, api: nat, targets: seq<nat>, blind: bool) {
    && api < |s.apis| && s.apis[api].queued.Some? && s.apis[api].queued.value < |s.passes|
    && s.passes[s.apis[api].queued.value].Done() && s.apis[api].running != s.apis[api].queued
    && Listed(targets, |s.machines|)
    && t == s.(passes := s.passes + [NewPass(s.machines, api, targets, blind)],
               apis := s.apis[api := Api(Some(|s.passes|), None)],
               waiters := Moved(s.waiters, api, |s.passes|))
  }

  ghost predicate Boot(s: State, t: State) {
    t == s.(apis := s.apis + [Api(None, None)])
  }

  ghost predicate Resume(s: State, t: State, p: nat, cursor: string) {
    && Live(s, p) && s.passes[p].work.Resting?
    && StartCursor(s.db.log, s.machines[Target(s, p)].name, cursor)
    && t == SetPass(s, p, s.passes[p].(work := Paging(cursor)))
  }

  ghost predicate FetchPage(s: State, t: State, p: nat) {
    && Live(s, p) && s.passes[p].work.Paging?
    && var cursor := s.passes[p].work.cursor;
    && t == SetPass(s, p, s.passes[p].(work := Loaded(cursor, Fetch(s.machines[Target(s, p)].table, cursor))))
  }

  ghost predicate Store(s: State, t: State, p: nat, price: UsageRow -> Option<int>) {
    && Live(s, p) && s.passes[p].work.Loaded?
    && var page := s.passes[p].work.page;
    && t == SetPass(s, p, AfterPage(s.passes[p], page)).(db := IngestPage(s.db, page, price))
  }

  /** A fetch or a transaction failed: nothing is stored and the pass goes on without the machine. */
  ghost predicate Fail(s: State, t: State, p: nat) {
    && Live(s, p)
    && t == SetPass(s, p, NextTarget(s.passes[p]).(failed := s.passes[p].failed + {Target(s, p)}))
  }

  ghost predicate Does(s: State, t: State, a: Action) {
    match a
    case Recording(i, now, row) => Record(s, t, i, now, row)
    case Clocking(i, call) => ClockOnly(s, t, i, call)
    case KeyChange(op) => ChangeKeys(s, t, op)
    case Calling(api, targets, blind) => CallIdle(s, t, api, targets, blind)
    case Queueing(api) => CallBusy(s, t, api)
    case Ticking(api, targets, blind) => TimerTick(s, t, api, targets, blind)
    case Settling(api, p) => Settle(s, t, api, p)
    case Firing(api, targets, blind) => Fire(s, t, api, targets, blind)
    case Booting => Boot(s, t)
    case Resuming(p, cursor) => Resume(s, t, p, cursor)
    case Fetching(p) => FetchPage(s, t, p)
    case Storing(p, price) => Store(s, t, p, price)
    case Failing(p) => Fail(s, t, p)
  }

  ghost predicate Step(s: State, t: State) {
    exists a :: Does(s, t, a)
  }

  ghost predicate Init(s: State) {
    Booted(s.machines) && s.db == EMPTY && s.passes == [] && s.apis == [] && s.waiters == []
  }

  ghost predicate IsRun(run: seq<State>) {
    && run != [] && Init(run[0])
    && forall i, j :: 0 <= i && j == i + 1 < |run| ==> Step(run[i], run[j])
  }

  // ---------------------------------------------------------------------------
  // The invariant
  // ---------------------------------------------------------------------------

  ghost predicate WorkOk(m: Machine, db: Db, snap: nat, work: Work) {
    match work
    case Resting => true
    case Paging(cursor) => Passed(m, cursor) && StoredTo(m, db, cursor)
    case Loaded(cursor, page) =>
      && Passed(m, cursor) && StoredTo(m, db, cursor)
      && exists n :: snap <= n && FetchedAt(m, cursor, page, n)
  }

  ghost predicate PassOk(ms: seq<Machine>, db: Db, p: Pass) {
    && |p.snap| == |ms| && p.at <= |p.targets| && Listed(p.targets, |ms|)
    && (forall i :: 0 <= i < |ms| ==> p.snap[i] <= |ms[i].table|)
    && (p.blind ==> p.targets == [])
    && (forall a :: 0 <= a < p.at && p.targets[a] !in p.failed
          ==> StoredFirst(ms[p.targets[a]], db, p.snap[p.targets[a]]))
    && (p.at < |p.targets| ==> WorkOk(ms[p.targets[p.at]], db, p.snap[p.targets[p.at]], p.work))
  }

  ghost predicate LogFromTables(ms: seq<Machine>, db: Db) {
    forall l :: l in db.log ==> InTables(ms, l.row)
  }

  ghost predicate DataOk(ms: seq<Machine>, db: Db) {
    && MachinesOk(ms) && LogFromTables(ms, db) && SpendOk(db) && OverIsSpent(db)
    && forall i :: 0 <= i < |ms| ==> PrefixClosed(ms[i], db)
  }

  ghost predicate WaiterOk(s: State, w: Waiter) {
    match w.on
    case OnQueue(api) =>
      && api < |s.apis| && s.apis[api].queued.Some?
      && UpTo(w.seen, Lengths(s.machines)) && w.from <= |s.passes|
    case OnPass(p) => p < |s.passes| && w.from <= p && UpTo(w.seen, s.passes[p].snap)
  }

  ghost predicate Inv(s: State) {
    && DataOk(s.machines, s.db)
    && (forall p :: 0 <= p < |s.passes| ==> PassOk(s.machines, s.db, s.passes[p]))
    && (forall i :: 0 <= i < |s.waiters| ==> WaiterOk(s, s.waiters[i]))
  }

  // ---------------------------------------------------------------------------
  // Recording
  // ---------------------------------------------------------------------------

  lemma RecordKeepsWork(m: Machine, db: Db, snap: nat, work: Work, now: int, row: UsageRow)
    requires WorkOk(m, db, snap, work) && m.clock.Ok() && Stamp(row.usageId) == IdStamp(Tick(m.clock, now))
    ensures WorkOk(m.(clock := Tick(m.clock, now), table := m.table + [row]), db, snap, work)
  {
    TickIsOneNumber(m.clock, now);
    var t := m.(clock := Tick(m.clock, now), table := m.table + [row]);
    if work.Loaded? {
      var n :| snap <= n && FetchedAt(m, work.cursor, work.page, n);
      assert t.table[..n] == m.table[..n];
      assert FetchedAt(t, work.cursor, work.page, n);
    }
  }

  lemma RecordKeepsPass(ms: seq<Machine>, db: Db, p: Pass, i: nat, now: int, row: UsageRow)
    requires MachinesOk(ms) && PassOk(ms, db, p) && CanRecord(ms, i, now, row)
    ensures PassOk(Recorded(ms, i, now, row), db, p)
  {
    var t := Recorded(ms, i, now, row);
    forall a | 0 <= a < p.at && p.targets[a] !in p.failed
      ensures StoredFirst(t[p.targets[a]], db, p.snap[p.targets[a]])
    {
      var k := p.targets[a];
      assert StoredFirst(ms[k], db, p.snap[k]);
      assert t[k].table[..p.snap[k]] == ms[k].table[..p.snap[k]];
    }
    if p.at < |p.targets| && p.targets[p.at] == i {
      RecordKeepsWork(ms[i], db, p.snap[i], p.work, now, row);
    }
  }

  /** A machine's new row is above all it has stored. */
  lemma RecordKeepsPrefix(ms: seq<Machine>, db: Db, i: nat, m: Machine, row: UsageRow)
    requires MachinesOk(ms) && LogFromTables(ms, db) && i < |ms| && PrefixClosed(ms[i], db)
    requires m.name == ms[i].name && m.table == ms[i].table + [row] && Stamp(row.usageId) >= ms[i].clock.Next()
    ensures PrefixClosed(m, db)
  {
  }

  lemma RecordKeepsData(ms: seq<Machine>, db: Db, i: nat, now: int, row: UsageRow)
    requires DataOk(ms, db) && CanRecord(ms, i, now, row)
    ensures DataOk(Recorded(ms, i, now, row), db)
  {
    RecordingKeepsMachines(ms, i, now, row);
    var t := Recorded(ms, i, now, row);
    forall j | 0 <= j < |t|
      ensures PrefixClosed(t[j], db)
    {
      if j == i {
        RecordKeepsPrefix(ms, db, i, t[i], row);
      }
    }
  }

  lemma OfMachine(ms: seq<Machine>, db: Db, i: nat, l: LogRow)
    requires MachinesOk(ms) && LogFromTables(ms, db) && i < |ms| && l in db.log && l.row.machineId == ms[i].name
    ensures l.row in ms[i].table
  {
  }

  lemma ClockKeepsPass(ms: seq<Machine>, db: Db, p: Pass, i: nat, call: Call)
    requires MachinesOk(ms) && PassOk(ms, db, p) && i < |ms|
    ensures PassOk(Clocked(ms, i, call), db, p)
  {
    ClockingKeepsMachines(ms, i, call);
    var t := Clocked(ms, i, call);
    forall a | 0 <= a < p.at && p.targets[a] !in p.failed
      ensures StoredFirst(t[p.targets[a]], db, p.snap[p.targets[a]])
    {
      assert StoredFirst(ms[p.targets[a]], db, p.snap[p.targets[a]]);
    }
    if p.at < |p.targets| && p.targets[p.at] == i && p.work.Loaded? {
      var n :| p.snap[i] <= n && FetchedAt(ms[i], p.work.cursor, p.work.page, n);
      assert FetchedAt(t[i], p.work.cursor, p.work.page, n);
    }
  }

  // ---------------------------------------------------------------------------
  // Database growth
  // ---------------------------------------------------------------------------

  /** The log only gains rows, and no key appears that a recorded row already names. */
  ghost predicate Fills(ms: seq<Machine>, db: Db, db2: Db) {
    && IdsOf(db.log) <= IdsOf(db2.log)
    && forall r :: InTables(ms, r) && r.keyId in db2.keys ==> r.keyId in db.keys
  }

  lemma FillKeepsPass(ms: seq<Machine>, db: Db, db2: Db, p: Pass)
    requires PassOk(ms, db, p) && Fills(ms, db, db2)
    ensures PassOk(ms, db2, p)
  {
  }

  lemma KeyChangeFills(s: State, op: Op)
    requires DataOk(s.machines, s.db) && !op.Ingest? && Enabled(s.db, op)
    requires op.NewKey? ==> forall r :: InTables(s.machines, r) ==> r.keyId != op.id
    ensures Fills(s.machines, s.db, Apply(s.db, op)) && DataOk(s.machines, Apply(s.db, op))
  {
    var db2 := Apply(s.db, op);
    assert db2.log == s.db.log;
    ApplyKeepsSpend(s.db, op);
    ApplyKeepsOverIsSpent(s.db, op);
    forall i, r | 0 <= i < |s.machines| && r in s.machines[i].table && Stored(s.db, r)
      ensures Stored(db2, r)
    {
      assert InTables(s.machines, r);
    }
    forall i | 0 <= i < |s.machines|
      ensures PrefixClosed(s.machines[i], db2)
    {
      assert PrefixClosed(s.machines[i], s.db);
    }
  }

  // ---------------------------------------------------------------------------
  // Polling
  // ---------------------------------------------------------------------------

  lemma TableIsDistinct(m: Machine, n: nat)
    requires TableOk(m.table, m.clock) && n <= |m.table|
    ensures DistinctIds(m.table[..n])
  {
  }

  lemma StoredBelowNewest(m: Machine, db: Db, cursor: string, u: UsageId)
    requires PrefixClosed(m, db) && IsNewest(db.log, m.name, u) && OverlapOf(u, cursor)
    ensures StoredTo(m, db, cursor)
  {
    var l :| l in db.log && l.row.machineId == m.name && l.row.usageId == u;
    forall r | r in m.table && !LexLess(cursor, Print(r.usageId))
      ensures Stored(db, r)
    {
      OverlapReachesBack(u, r.usageId);
      assert !Less(l.row.usageId, r.usageId);
    }
  }

  lemma OverlapIsSafe(ms: seq<Machine>, db: Db, i: nat, cursor: string, u: UsageId)
    requires DataOk(ms, db) && i < |ms| && IsNewest(db.log, ms[i].name, u) && OverlapOf(u, cursor)
    ensures Passed(ms[i], cursor) && StoredTo(ms[i], db, cursor)
  {
    var m := ms[i];
    var l :| l in db.log && l.row.machineId == m.name && l.row.usageId == u;
    OfMachine(ms, db, i, l);
    var k := IndexOf(m.table, l.row);
    forall v: UsageId | Stamp(v) >= m.clock.Next()
      ensures LexLess(cursor, Print(v))
    {
      OverlapReachesBack(u, v);
    }
    StoredBelowNewest(m, db, cursor, u);
  }

  /** A start cursor is safe: what it skips is ten seconds older than the newest stored row, and
      replication is prefix-closed. */
  lemma StartIsSafe(ms: seq<Machine>, db: Db, i: nat, cursor: string)
    requires DataOk(ms, db) && i < |ms| && StartCursor(db.log, ms[i].name, cursor)
    ensures Passed(ms[i], cursor) && StoredTo(ms[i], db, cursor)
  {
    if u :| IsNewest(db.log, ms[i].name, u) && OverlapOf(u, cursor) {
      OverlapIsSafe(ms, db, i, cursor, u);
    } else {
      forall v: UsageId
        ensures LexLess(cursor, Print(v))
      {
        ZeroIsFirst(v);
      }
    }
  }

  lemma FirstOnPage(b: seq<UsageRow>, limit: nat, r: UsageRow)
    requires Sorted(b) && r in b && limit >= 1
    requires var page := FirstN(b, limit); |page| < limit || !Before(page[limit - 1], r)
    ensures r in FirstN(b, limit)
  {
  }

  lemma BacklogRow(m: Machine, cursor: string, n: nat, r: UsageRow)
    requires TableOk(m.table, m.clock) && n <= |m.table|
    ensures var b := Backlog(m.table[..n], cursor);
            Sorted(b) && (r in b <==> r in m.table[..n] && LexLess(cursor, Print(r.usageId)))
  {
    TableIsDistinct(m, n);
    BacklogIsSorted(m.table[..n], cursor);
  }

  /** A row up to a page's last one was there when the page was fetched. */
  lemma BeforeLast(m: Machine, cursor: string, page: seq<UsageRow>, n: nat, r: UsageRow)
    requires TableOk(m.table, m.clock) && FetchedAt(m, cursor, page, n) && r in m.table
    requires page != [] && !Less(page[|page| - 1].usageId, r.usageId)
    ensures r in m.table[..n]
  {
    BacklogRow(m, cursor, n, page[|page| - 1]);
    EarlyRow(m, n, page[|page| - 1], r);
  }

  lemma EarlyOnPage(m: Machine, cursor: string, page: seq<UsageRow>, n: nat, r: UsageRow)
    requires TableOk(m.table, m.clock) && FetchedAt(m, cursor, page, n)
    requires r in m.table[..n] && LexLess(cursor, Print(r.usageId))
    requires |page| < PAGE_LIMIT || !Less(page[|page| - 1].usageId, r.usageId)
    ensures r in page
  {
    BacklogRow(m, cursor, n, r);
    FirstOnPage(Backlog(m.table[..n], cursor), PAGE_LIMIT, r);
  }

  /** A row of the table up to the end of a fetched page is on the page or before its cursor. */
  lemma OnPageOrBefore(m: Machine, cursor: string, page: seq<UsageRow>, n: nat, r: UsageRow)
    requires TableOk(m.table, m.clock) && FetchedAt(m, cursor, page, n)
    requires r in m.table && LexLess(cursor, Print(r.usageId))
    requires (|page| < PAGE_LIMIT && r in m.table[..n])
          || (page != [] && !Less(page[|page| - 1].usageId, r.usageId))
    ensures r in page
  {
    if r !in m.table[..n] {
      BeforeLast(m, cursor, page, n, r);
    }
    EarlyOnPage(m, cursor, page, n, r);
  }

  lemma EarlyRow(m: Machine, n: nat, q: UsageRow, r: UsageRow)
    requires TableOk(m.table, m.clock) && n <= |m.table| && q in m.table[..n] && r in m.table
    requires !Less(q.usageId, r.usageId)
    ensures r in m.table[..n]
  {
  }

  lemma StoringGrows(db: Db, page: seq<UsageRow>, price: UsageRow -> Option<int>)
    ensures var t := IngestPage(db, page, price); IdsOf(db.log) <= IdsOf(t.log) && t.keys.Keys == db.keys.Keys
  {
    IdsOfConcat(db.log, NewRows(IdsOf(db.log), db.keys, page, price));
  }

  lemma StoringStores(db: Db, page: seq<UsageRow>, price: UsageRow -> Option<int>, r: UsageRow)
    requires r in page || Stored(db, r)
    ensures Stored(IngestPage(db, page, price), r)
  {
    StoringGrows(db, page, price);
    IdsOfConcat(db.log, NewRows(IdsOf(db.log), db.keys, page, price));
    if r in page && r.keyId in db.keys {
      NewRowsCover(IdsOf(db.log), db.keys, page, price, r);
    }
  }

  /** Storing a fetched page moves what is stored up to the page's last id; a short page stores
      everything the machine had when it was fetched. */
  lemma StoredPage(m: Machine, db: Db, cursor: string, page: seq<UsageRow>, n: nat, price: UsageRow -> Option<int>)
    requires TableOk(m.table, m.clock) && FetchedAt(m, cursor, page, n) && StoredTo(m, db, cursor)
    ensures var t := IngestPage(db, page, price);
            && (forall r :: r in m.table && page != [] && !Less(page[|page| - 1].usageId, r.usageId) ==> Stored(t, r))
            && (|page| < PAGE_LIMIT ==> StoredFirst(m, t, n))
  {
    var t := IngestPage(db, page, price);
    forall r | r in m.table && ((page != [] && !Less(page[|page| - 1].usageId, r.usageId))
                                || (|page| < PAGE_LIMIT && r in m.table[..n]))
      ensures Stored(t, r)
    {
      if LexLess(cursor, Print(r.usageId)) {
        OnPageOrBefore(m, cursor, page, n, r);
      }
      StoringStores(db, page, price, r);
    }
  }

  lemma PageRowsOfMachine(m: Machine, cursor: string, page: seq<UsageRow>, n: nat, r: UsageRow)
    requires FetchedAt(m, cursor, page, n) && r in page
    ensures r in m.table
  {
    assert r in Backlog(m.table[..n], cursor);
  }

  lemma PageIsSorted(m: Machine, cursor: string, page: seq<UsageRow>, n: nat)
    requires TableOk(m.table, m.clock) && FetchedAt(m, cursor, page, n)
    ensures Sorted(page)
  {
    TableIsDistinct(m, n);
    BacklogIsSorted(m.table[..n], cursor);
  }

  lemma NewLogRows(db: Db, page: seq<UsageRow>, price: UsageRow -> Option<int>, l: LogRow)
    requires l in IngestPage(db, page, price).log
    ensures l in db.log || l.row in page
  {
    NewRowsAreNew(IdsOf(db.log), db.keys, page, price);
  }

  lemma AtMostLast(page: seq<UsageRow>, q: UsageRow, r: UsageRow)
    requires Sorted(page) && q in page && !Less(q.usageId, r.usageId)
    ensures !Less(page[|page| - 1].usageId, r.usageId)
  {
  }

  lemma StoreKeepsPrefix(ms: seq<Machine>, db: Db, i: nat, j: nat, cursor: string, page: seq<UsageRow>, n: nat,
                         price: UsageRow -> Option<int>, r: UsageRow, l: LogRow)
    requires DataOk(ms, db) && i < |ms| && j < |ms| && FetchedAt(ms[i], cursor, page, n) && StoredTo(ms[i], db, cursor)
    requires r in ms[j].table && l in IngestPage(db, page, price).log && l.row.machineId == ms[j].name
    requires !Less(l.row.usageId, r.usageId)
    ensures Stored(IngestPage(db, page, price), r)
  {
    NewLogRows(db, page, price, l);
    if l in db.log {
      assert PrefixClosed(ms[j], db);
      StoringStores(db, page, price, r);
    } else {
      PageRowsOfMachine(ms[i], cursor, page, n, l.row);
      assert i == j;
      PageIsSorted(ms[i], cursor, page, n);
      AtMostLast(page, l.row, r);
      StoredPage(ms[i], db, cursor, page, n, price);
    }
  }

  lemma StoreKeepsData(ms: seq<Machine>, db: Db, i: nat, cursor: string, page: seq<UsageRow>, n: nat,
                       price: UsageRow -> Option<int>)
    requires DataOk(ms, db) && i < |ms| && FetchedAt(ms[i], cursor, page, n) && StoredTo(ms[i], db, cursor)
    ensures DataOk(ms, IngestPage(db, page, price)) && Fills(ms, db, IngestPage(db, page, price))
  {
    var t := IngestPage(db, page, price);
    IngestKeepsSpend(db, page, price);
    assert Enabled(db, Ingest(page, price));
    ApplyKeepsOverIsSpent(db, Ingest(page, price));
    forall l | l in t.log
      ensures InTables(ms, l.row)
    {
      NewLogRows(db, page, price, l);
      if l !in db.log {
        PageRowsOfMachine(ms[i], cursor, page, n, l.row);
      }
    }
    forall j, r, l | 0 <= j < |ms| && r in ms[j].table && l in t.log && l.row.machineId == ms[j].name
                     && !Less(l.row.usageId, r.usageId)
      ensures Stored(t, r)
    {
      StoreKeepsPrefix(ms, db, i, j, cursor, page, n, price, r, l);
    }
    StoringGrows(db, page, price);
  }

  lemma AfterFullPage(m: Machine, db: Db, cursor: string, page: seq<UsageRow>, n: nat, price: UsageRow -> Option<int>)
    requires TableOk(m.table, m.clock) && FetchedAt(m, cursor, page, n) && StoredTo(m, db, cursor) && page != []
    ensures var next := Print(page[|page| - 1].usageId);
            Passed(m, next) && StoredTo(m, IngestPage(db, page, price), next)
  {
    var last := page[|page| - 1];
    StoredPage(m, db, cursor, page, n, price);
    PageRowsOfMachine(m, cursor, page, n, last);
    var at := IndexOf(m.table, last);
    forall u: UsageId
      ensures LexLess(Print(last.usageId), Print(u)) <==> Less(last.usageId, u)
    {
      StringOrderIsIdOrder(last.usageId, u);
    }
  }

  lemma AfterShortPage(m: Machine, db: Db, cursor: string, page: seq<UsageRow>, n: nat, snap: nat,
                       price: UsageRow -> Option<int>)
    requires TableOk(m.table, m.clock) && FetchedAt(m, cursor, page, n) && StoredTo(m, db, cursor)
    requires |page| < PAGE_LIMIT && snap <= n
    ensures StoredFirst(m, IngestPage(db, page, price), snap)
  {
    StoredPage(m, db, cursor, page, n, price);
    forall r | r in m.table[..snap]
      ensures r in m.table[..n]
    {
      var k := IndexOf(m.table[..snap], r);
      assert m.table[..n][k] == r;
    }
  }

  lemma TargetDone(ms: seq<Machine>, db: Db, p: Pass)
    requires PassOk(ms, db, p) && p.at < |p.targets|
    requires p.targets[p.at] in p.failed || StoredFirst(ms[p.targets[p.at]], db, p.snap[p.targets[p.at]])
    ensures PassOk(ms, db, NextTarget(p))
  {
  }

  lemma WorkReplaced(ms: seq<Machine>, db: Db, p: Pass, work: Work)
    requires PassOk(ms, db, p) && p.at < |p.targets|
    requires WorkOk(ms[p.targets[p.at]], db, p.snap[p.targets[p.at]], work)
    ensures PassOk(ms, db, p.(work := work))
  {
  }

  // ---------------------------------------------------------------------------
  // Every step keeps the invariant
  // ---------------------------------------------------------------------------

  /** What storing a page makes of its machine: a short one has all the machine had at `snap`. */
  ghost predicate Landed(m: Machine, t: Db, snap: nat, page: seq<UsageRow>) {
    if |page| < PAGE_LIMIT then StoredFirst(m, t, snap)
    else var next := Print(page[|page| - 1].usageId); Passed(m, next) && StoredTo(m, t, next)
  }

  lemma PageLands(m: Machine, db: Db, cursor: string, page: seq<UsageRow>, n: nat, snap: nat,
                  price: UsageRow -> Option<int>)
    requires TableOk(m.table, m.clock) && FetchedAt(m, cursor, page, n) && StoredTo(m, db, cursor) && snap <= n
    ensures Landed(m, IngestPage(db, page, price), snap, page)
  {
    if |page| < PAGE_LIMIT {
      AfterShortPage(m, db, cursor, page, n, snap, price);
    } else {
      AfterFullPage(m, db, cursor, page, n, price);
    }
  }

  lemma GoesOn(ms: seq<Machine>, db: Db, p: Pass, t: Db)
    requires PassOk(ms, db, p) && p.at < |p.targets| && Fills(ms, db, t)
    requires StoredFirst(ms[p.targets[p.at]], t, p.snap[p.targets[p.at]])
    ensures PassOk(ms, t, NextTarget(p))
  {
    FillKeepsPass(ms, db, t, p);
    TargetDone(ms, t, p);
  }

  lemma PagesOn(ms: seq<Machine>, db: Db, p: Pass, t: Db, next: string)
    requires PassOk(ms, db, p) && p.at < |p.targets| && Fills(ms, db, t)
    requires Passed(ms[p.targets[p.at]], next) && StoredTo(ms[p.targets[p.at]], t, next)
    ensures PassOk(ms, t, p.(work := Paging(next)))
  {
    FillKeepsPass(ms, db, t, p);
    WorkReplaced(ms, t, p, Paging(next));
  }

  lemma LandedKeepsPass(ms: seq<Machine>, db: Db, p: Pass, t: Db)
    requires PassOk(ms, db, p) && p.at < |p.targets| && p.work.Loaded? && Fills(ms, db, t)
    requires Landed(ms[p.targets[p.at]], t, p.snap[p.targets[p.at]], p.work.page)
    ensures PassOk(ms, t, AfterPage(p, p.work.page))
  {
    var next := AfterPage(p, p.work.page);
    if |p.work.page| < PAGE_LIMIT {
      assert next == NextTarget(p);
      GoesOn(ms, db, p, t);
    } else {
      assert next == p.(work := Paging(next.work.cursor));
      PagesOn(ms, db, p, t, next.work.cursor);
    }
  }

  lemma StoreLands(ms: seq<Machine>, db: Db, p: Pass, price: UsageRow -> Option<int>)
    requires DataOk(ms, db) && PassOk(ms, db, p) && p.at < |p.targets| && p.work.Loaded?
    ensures var t, k := IngestPage(db, p.work.page, price), p.targets[p.at];
            DataOk(ms, t) && Fills(ms, db, t) && Landed(ms[k], t, p.snap[k], p.work.page)
  {
    var k := p.targets[p.at];
    var n :| p.snap[k] <= n && FetchedAt(ms[k], p.work.cursor, p.work.page, n);
    StoreKeepsData(ms, db, k, p.work.cursor, p.work.page, n, price);
    PageLands(ms[k], db, p.work.cursor, p.work.page, n, p.snap[k], price);
  }

  lemma StoringKeepsPasses(s: State, p: nat, t: Db)
    requires Inv(s) && Live(s, p) && s.passes[p].work.Loaded? && Fills(s.machines, s.db, t)
    requires Landed(s.machines[Target(s, p)], t, s.passes[p].snap[Target(s, p)], s.passes[p].work.page)
    ensures var after := s.passes[p := AfterPage(s.passes[p], s.passes[p].work.page)];
            forall q :: 0 <= q < |after| ==> PassOk(s.machines, t, after[q])
  {
    forall q | 0 <= q < |s.passes|
      ensures PassOk(s.machines, t, if q == p then AfterPage(s.passes[p], s.passes[p].work.page) else s.passes[q])
    {
      if q == p {
        LandedKeepsPass(s.machines, s.db, s.passes[p], t);
      } else {
        FillKeepsPass(s.machines, s.db, t, s.passes[q]);
      }
    }
  }

  lemma StoringKeepsInv(s: State, t: State, p: nat, price: UsageRow -> Option<int>)
    requires Inv(s) && Store(s, t, p, price)
    ensures Inv(t)
  {
    assert PassOk(s.machines, s.db, s.passes[p]);
    StoreLands(s.machines, s.db, s.passes[p], price);
    StoringKeepsPasses(s, p, t.db);
    WaitersStay(s, t);
  }

  /** Waiters only look at table lengths, pass snapshots and queues. */
  lemma WaitersStay(s: State, t: State)
    requires forall i :: 0 <= i < |s.waiters| ==> WaiterOk(s, s.waiters[i])
    requires t.waiters == s.waiters && UpTo(Lengths(s.machines), Lengths(t.machines))
    requires |s.apis| <= |t.apis| && forall a :: 0 <= a < |s.apis| && s.apis[a].queued.Some? ==> t.apis[a].queued.Some?
    requires |s.passes| <= |t.passes| && forall p :: 0 <= p < |s.passes| ==> t.passes[p].snap == s.passes[p].snap
    ensures forall i :: 0 <= i < |t.waiters| ==> WaiterOk(t, t.waiters[i])
  {
  }

  lemma CallIdleKeepsInv(s: State, t: State, api: nat, targets: seq<nat>, blind: bool)
    requires Inv(s) && CallIdle(s, t, api, targets, blind)
    ensures Inv(t)
  {
  }

  lemma CallBusyKeepsInv(s: State, t: State, api: nat)
    requires Inv(s) && CallBusy(s, t, api)
    ensures Inv(t)
  {
  }

  lemma TickKeepsInv(s: State, t: State, api: nat, targets: seq<nat>, blind: bool)
    requires Inv(s) && TimerTick(s, t, api, targets, blind)
    ensures Inv(t)
  {
  }

  lemma FiringKeepsInv(s: State, t: State, api: nat, targets: seq<nat>, blind: bool)
    requires Inv(s) && Fire(s, t, api, targets, blind)
    ensures Inv(t)
  {
  }

  lemma RecordKeepsInv(s: State, t: State, i: nat, now: int, row: UsageRow)
    requires Inv(s) && Record(s, t, i, now, row)
    ensures Inv(t)
  {
    RecordKeepsData(s.machines, s.db, i, now, row);
    forall p | 0 <= p < |s.passes|
      ensures PassOk(t.machines, t.db, t.passes[p])
    {
      RecordKeepsPass(s.machines, s.db, s.passes[p], i, now, row);
    }
    WaitersStay(s, t);
  }

  lemma ClockKeepsInv(s: State, t: State, i: nat, call: Call)
    requires Inv(s) && ClockOnly(s, t, i, call)
    ensures Inv(t)
  {
    ClockingKeepsMachines(s.machines, i, call);
    forall j | 0 <= j < |s.machines|
      ensures PrefixClosed(t.machines[j], t.db)
    {
      assert PrefixClosed(s.machines[j], s.db);
    }
    forall p | 0 <= p < |s.passes|
      ensures PassOk(t.machines, t.db, t.passes[p])
    {
      ClockKeepsPass(s.machines, s.db, s.passes[p], i, call);
    }
    WaitersStay(s, t);
  }

  lemma KeyChangeKeepsInv(s: State, t: State, op: Op)
    requires Inv(s) && ChangeKeys(s, t, op)
    ensures Inv(t)
  {
    KeyChangeFills(s, op);
    forall p | 0 <= p < |s.passes|
      ensures PassOk(t.machines, t.db, t.passes[p])
    {
      FillKeepsPass(s.machines, s.db, t.db, s.passes[p]);
    }
    WaitersStay(s, t);
  }

  lemma OnePassKeepsInv(s: State, t: State, p: nat, pass: Pass)
    requires Inv(s) && p < |s.passes| && t == SetPass(s, p, pass)
    requires pass.snap == s.passes[p].snap && PassOk(s.machines, s.db, pass)
    ensures Inv(t)
  {
  }

  lemma ResumeKeepsInv(s: State, t: State, p: nat, cursor: string)
    requires Inv(s) && Resume(s, t, p, cursor)
    ensures Inv(t)
  {
    assert PassOk(s.machines, s.db, s.passes[p]);
    StartIsSafe(s.machines, s.db, Target(s, p), cursor);
    WorkReplaced(s.machines, s.db, s.passes[p], Paging(cursor));
    OnePassKeepsInv(s, t, p, t.passes[p]);
  }

  lemma FailKeepsInv(s: State, t: State, p: nat)
    requires Inv(s) && Fail(s, t, p)
    ensures Inv(t)
  {
    var pass := s.passes[p];
    assert PassOk(s.machines, s.db, pass);
    TargetDone(s.machines, s.db, pass.(failed := pass.failed + {Target(s, p)}));
    OnePassKeepsInv(s, t, p, t.passes[p]);
  }

  lemma ApisKeepInv(s: State, t: State)
    requires Inv(s) && t == s.(apis := t.apis) && |s.apis| <= |t.apis|
    requires forall a :: 0 <= a < |s.apis| ==> t.apis[a].queued == s.apis[a].queued
    ensures Inv(t)
  {
  }

  lemma StepKeepsInv(s: State, t: State, a: Action)
    requires Inv(s) && Does(s, t, a)
    ensures Inv(t)
  {
    match a
    case Recording(i, now, row) => RecordKeepsInv(s, t, i, now, row);
    case Clocking(i, call) => ClockKeepsInv(s, t, i, call);
    case KeyChange(op) => KeyChangeKeepsInv(s, t, op);
    case Calling(api, targets, blind) => CallIdleKeepsInv(s, t, api, targets, blind);
    case Queueing(api) => CallBusyKeepsInv(s, t, api);
    case Ticking(api, targets, blind) => TickKeepsInv(s, t, api, targets, blind);
    case Settling(api, pass) => ApisKeepInv(s, t);
    case Firing(api, targets, blind) => FiringKeepsInv(s, t, api, targets, blind);
    case Booting => ApisKeepInv(s, t);
    case Resuming(p, cursor) => ResumeKeepsInv(s, t, p, cursor);
    case Fetching(p) => FetchingKeepsInv(s, t, p);
    case Storing(p, price) => StoringKeepsInv(s, t, p, price);
    case Failing(p) => FailKeepsInv(s, t, p);
  }

  lemma FetchingKeepsInv(s: State, t: State, p: nat)
    requires Inv(s) && FetchPage(s, t, p)
    ensures Inv(t)
  {
    var pass := s.passes[p];
    assert PassOk(s.machines, s.db, pass);
    var m := s.machines[Target(s, p)];
    assert m.table[..|m.table|] == m.table;
    assert FetchedAt(m, pass.work.cursor, Fetch(m.table, pass.work.cursor), |m.table|);
    OnePassKeepsInv(s, t, p, t.passes[p]);
  }

  lemma {:induction false} RunInv(run: seq<State>, i: nat)
    requires IsRun(run) && i < |run|
    ensures Inv(run[i])
  {
    if i > 0 {
      RunInv(run, i - 1);
      assert Step(run[i - 1], run[i]);
      var a :| Does(run[i - 1], run[i], a);
      StepKeepsInv(run[i - 1], run[i], a);
    }
  }

  // ---------------------------------------------------------------------------
  // Main results
  // ---------------------------------------------------------------------------

  /** In every reachable state, for every machine: each recorded row whose key exists and whose id
      is at most the newest stored one from that machine is stored; spend equals what the log
      says; and over_budget means spent. Pollers may interleave, fail midway and restart. */
  lemma ReplicationIsPrefixClosed(run: seq<State>, i: nat, m: Machine, r: UsageRow, newest: UsageId)
    requires IsRun(run) && i < |run|
    requires m in run[i].machines && r in m.table && r.keyId in run[i].db.keys
    requires IsNewest(run[i].db.log, m.name, newest) && !Less(newest, r.usageId)
    ensures r.usageId in IdsOf(run[i].db.log)
    ensures SpendOk(run[i].db) && OverIsSpent(run[i].db)
  {
    RunInv(run, i);
    var k :| 0 <= k < |run[i].machines| && run[i].machines[k] == m;
    assert PrefixClosed(m, run[i].db);
    var l :| l in run[i].db.log && l.row.machineId == m.name && l.row.usageId == newest;
    assert Stored(run[i].db, r);
  }

  lemma BarrierAt(s: State, w: Waiter, k: nat, r: UsageRow)
    requires Inv(s) && w in s.waiters && w.on.OnPass? && w.on.pass < |s.passes| && s.passes[w.on.pass].Complete()
    requires k in s.passes[w.on.pass].targets && k < |s.machines| && k < |w.seen|
    requires w.seen[k] <= |s.machines[k].table| && r in s.machines[k].table[..w.seen[k]] && r.keyId in s.db.keys
    ensures w.from <= w.on.pass && r.usageId in IdsOf(s.db.log)
  {
    assert WaiterOk(s, w);
    var pass := s.passes[w.on.pass];
    assert PassOk(s.machines, s.db, pass);
    var a :| 0 <= a < |pass.targets| && pass.targets[a] == k;
    assert StoredFirst(s.machines[k], s.db, pass.snap[k]);
    var x := IndexOf(s.machines[k].table[..w.seen[k]], r);
    assert s.machines[k].table[..pass.snap[k]][x] == r;
    assert Stored(s.db, r);
  }

  /** The ingest barrier: a caller of `ingestNow` gets a pass that starts at or after the call, and
      once that pass is over with no failed machine, every row any listed machine had recorded
      before the call, whose key exists, is stored. */
  lemma IngestBarrier(run: seq<State>, i: nat, w: Waiter, k: nat, r: UsageRow)
    requires IsRun(run) && i < |run| && w in run[i].waiters
    requires w.on.OnPass? && w.on.pass < |run[i].passes| && run[i].passes[w.on.pass].Complete()
    requires k in run[i].passes[w.on.pass].targets && k < |run[i].machines| && k < |w.seen|
    requires w.seen[k] <= |run[i].machines[k].table| && r in run[i].machines[k].table[..w.seen[k]]
    requires r.keyId in run[i].db.keys
    ensures w.from <= w.on.pass
    ensures r.usageId in IdsOf(run[i].db.log)
  {
    RunInv(run, i);
    BarrierAt(run[i], w, k, r);
  }

  // ---------------------------------------------------------------------------
  // Who gets which pass
  // ---------------------------------------------------------------------------

  /** A run with the action of each of its steps. */
  ghost predicate Follows(run: seq<State>, acts: seq<Action>) {
    && |run| == |acts| + 1 && Init(run[0])
    && forall i, j :: 0 <= i < |acts| && j == i + 1 ==> Does(run[i], run[j], acts[i])
  }

  lemma FollowsIsRun(run: seq<State>, acts: seq<Action>)
    requires Follows(run, acts)
    ensures IsRun(run)
  {
    forall i | 0 <= i < |run| - 1
      ensures Step(run[i], run[i + 1])
    {
      assert Does(run[i], run[i + 1], acts[i]);
    }
  }

  predicate Fires(a: Action, api: nat) {
    a.Firing? && a.api == api
  }

  /** A promise only changes when its queue fires, and then to the pass that starts. */
  lemma PromiseStep(s: State, t: State, a: Action, w: nat)
    requires Does(s, t, a) && w < |s.waiters|
    ensures |s.waiters| <= |t.waiters| && |s.passes| <= |t.passes|
    ensures var on := s.waiters[w].on;
            t.waiters[w].on == if a.Firing? && on == OnQueue(a.api) then OnPass(|s.passes|) else on
  {
  }

  lemma CountsGrow(s: State, t: State, a: Action)
    requires Does(s, t, a)
    ensures |s.waiters| <= |t.waiters| && |s.passes| <= |t.passes|
    ensures forall w :: |s.waiters| <= w < |t.waiters| && t.waiters[w].on.OnPass? ==> t.waiters[w].on.pass == |s.passes|
    ensures a.Firing? ==> |t.waiters| == |s.waiters| && |t.passes| == |s.passes| + 1
    ensures a.Queueing? ==> |t.waiters| == |s.waiters| + 1 && t.waiters[|s.waiters|].on == OnQueue(a.api)
  {
  }

  /** Whoever joins an api's queue stays on it until it next fires. */
  lemma {:induction false} QueuesUntilFired(run: seq<State>, acts: seq<Action>, x: nat, k: nat, api: nat)
    requires Follows(run, acts) && x < k < |run| && acts[x] == Queueing(api)
    requires forall n :: x < n < k ==> !Fires(acts[n], api)
    ensures |run[x].waiters| < |run[k].waiters| && run[k].waiters[|run[x].waiters|].on == OnQueue(api)
    decreases k
  {
    assert Does(run[k - 1], run[k], acts[k - 1]);
    if k == x + 1 {
      CountsGrow(run[x], run[k], acts[x]);
    } else {
      QueuesUntilFired(run, acts, x, k - 1, api);
      PromiseStep(run[k - 1], run[k], acts[k - 1], |run[x].waiters|);
    }
  }

  /** The waiter's promise is pass `p`. */
  ghost predicate Holds(s: State, w: nat, p: nat) {
    w < |s.waiters| && s.waiters[w].on == OnPass(p)
  }

  /** At the firing itself. */
  lemma FiringHandsOut(s: State, t: State, a: Action, w: nat)
    requires Inv(s) && Does(s, t, a) && a.Firing?
    ensures Holds(t, w, |s.passes|) <==> w < |s.waiters| && s.waiters[w].on == OnQueue(a.api)
  {
    CountsGrow(s, t, a);
    if w < |s.waiters| {
      PromiseStep(s, t, a, w);
      assert WaiterOk(s, s.waiters[w]);
    }
  }

  lemma LaterStepsKeepPass(s: State, t: State, a: Action, w: nat, p: nat)
    requires Does(s, t, a) && p < |s.passes|
    ensures Holds(t, w, p) <==> Holds(s, w, p)
  {
    CountsGrow(s, t, a);
    if w < |s.waiters| {
      PromiseStep(s, t, a, w);
    }
  }

  lemma AtFiring(run: seq<State>, acts: seq<Action>, k: nat, w: nat)
    requires Follows(run, acts) && k < |acts| && acts[k].Firing?
    ensures |run[k + 1].passes| == |run[k].passes| + 1
    ensures Holds(run[k + 1], w, |run[k].passes|) <==>
              w < |run[k].waiters| && run[k].waiters[w].on == OnQueue(acts[k].api)
  {
    assert Does(run[k], run[k + 1], acts[k]);
    CountsGrow(run[k], run[k + 1], acts[k]);
    FollowsIsRun(run, acts);
    RunInv(run, k);
    FiringHandsOut(run[k], run[k + 1], acts[k], w);
  }

  lemma {:induction false} AfterFiring(run: seq<State>, acts: seq<Action>, i: nat, j: nat, w: nat, p: nat)
    requires Follows(run, acts) && i <= j < |run| && p < |run[i].passes|
    ensures p < |run[j].passes| && (Holds(run[j], w, p) <==> Holds(run[i], w, p))
    decreases j
  {
    if i < j {
      AfterFiring(run, acts, i, j - 1, w, p);
      assert Does(run[j - 1], run[j], acts[j - 1]);
      LaterStepsKeepPass(run[j - 1], run[j], acts[j - 1], w, p);
      CountsGrow(run[j - 1], run[j], acts[j - 1]);
    }
  }

  /** The pass a queue starts when it fires is, from then on, the promise of exactly the callers who
      were waiting on that queue: all of them share the one pass, and nobody else has it. */
  lemma QueuedCallersShareOnePass(run: seq<State>, acts: seq<Action>, k: nat, j: nat, w: nat)
    requires Follows(run, acts) && k < |acts| && acts[k].Firing? && k < j < |run|
    ensures |run[k + 1].passes| == |run[k].passes| + 1
    ensures Holds(run[j], w, |run[k].passes|) <==>
              w < |run[k].waiters| && run[k].waiters[w].on == OnQueue(acts[k].api)
  {
    AtFiring(run, acts, k, w);
    AfterFiring(run, acts, k + 1, j, w, |run[k].passes|);
  }

  /** So every caller who joins between two firings of an api's queue ends with the same pass, the
      one the second firing starts. */
  lemma CallersBetweenFiringsGetOnePass(run: seq<State>, acts: seq<Action>, x: nat, k: nat, j: nat, api: nat)
    requires Follows(run, acts) && x < k < j < |run| && acts[x] == Queueing(api) && Fires(acts[k], api)
    requires forall n :: x < n < k ==> !Fires(acts[n], api)
    ensures Holds(run[j], |run[x].waiters|, |run[k].passes|)
  {
    QueuesUntilFired(run, acts, x, k, api);
    QueuedCallersShareOnePass(run, acts, k, j, |run[x].waiters|);
  }

  // ---------------------------------------------------------------------------
  // Exactly when an api's passes stay apart
  // ---------------------------------------------------------------------------

  /** Every unfinished pass of the api is the one it calls `running`, so there is at most one. */
  ghost predicate Apart(s: State, api: nat) {
    api < |s.apis| ==>
      forall p :: 0 <= p < |s.passes| && s.passes[p].api == api && !s.passes[p].Done()
        ==> s.apis[api].running == Some(p)
  }

  /** `running` and `queued` name passes of the api, and the pass a queue waits for is over unless it
      is still `running`. */
  ghost predicate Owned(s: State) {
    && (forall p :: 0 <= p < |s.passes| ==> s.passes[p].api < |s.apis|)
    && forall a :: 0 <= a < |s.apis| ==> ApiOwns(s, a)
  }

  ghost predicate ApiOwns(s: State, a: nat)
    requires a < |s.apis|
  {
    && (s.apis[a].running.Some? ==> s.apis[a].running.value < |s.passes| && s.passes[s.apis[a].running.value].api == a)
    && (s.apis[a].queued.Some? ==>
          && s.apis[a].queued.value < |s.passes|
          && (s.passes[s.apis[a].queued.value].Done() || s.apis[a].running == s.apis[a].queued))
  }

  /** The queue fires while another pass of the api is unfinished. */
  ghost predicate FiresOverRunning(s: State, a: Action, api: nat) {
    && Fires(a, api) && api < |s.apis| && s.apis[api].running.Some?
    && s.apis[api].running.value < |s.passes| && !s.passes[s.apis[api].running.value].Done()
  }

  /** What a step can do to passes: those there keep their api, and a finished one stays so. */
  lemma PassStep(s: State, t: State, a: Action, p: nat)
    requires Does(s, t, a) && p < |s.passes|
    ensures p < |t.passes| && t.passes[p].api == s.passes[p].api
    ensures s.passes[p].Done() ==> t.passes[p].Done()
    ensures !a.Storing? && !a.Failing? ==> t.passes[p].Done() == s.passes[p].Done()
  {
  }

  predicate Starts(a: Action, api: nat) {
    (a.Calling? || a.Ticking?) && a.api == api
  }

  /** What a step does to one api. */
  lemma ApiStep(s: State, t: State, a: Action, api: nat)
    requires Does(s, t, a) && api < |s.apis|
    ensures api < |t.apis|
    ensures Starts(a, api) ==> s.apis[api].running.None? && t.apis[api] == s.apis[api].(running := Some(|s.passes|))
    ensures Fires(a, api) ==> t.apis[api] == Api(Some(|s.passes|), None)
    ensures Starts(a, api) || Fires(a, api) ==> |t.passes| == |s.passes| + 1 && t.passes[|s.passes|].api == api
    ensures a.Queueing? && a.api == api ==>
              var was := s.apis[api];
              was.running.Some? && t.apis[api] == was.(queued := if was.queued.Some? then was.queued else was.running)
    ensures a.Settling? && a.api == api ==> t.apis[api] == s.apis[api].(running := None)
    ensures !Starts(a, api) && !Fires(a, api) && !((a.Queueing? || a.Settling?) && a.api == api) ==>
              t.apis[api] == s.apis[api]
    ensures !Starts(a, api) && !Fires(a, api) ==>
              forall p :: |s.passes| <= p < |t.passes| ==> t.passes[p].api != api
  {
  }

  lemma ApiStepOwns(s: State, t: State, a: Action, api: nat)
    requires Owned(s) && Does(s, t, a) && api < |s.apis|
    ensures api < |t.apis| && ApiOwns(t, api)
  {
    ApiStep(s, t, a, api);
    assert ApiOwns(s, api);
    if s.apis[api].running.Some? {
      PassStep(s, t, a, s.apis[api].running.value);
    }
    if s.apis[api].queued.Some? {
      PassStep(s, t, a, s.apis[api].queued.value);
    }
  }

  lemma StepKeepsOwned(s: State, t: State, a: Action)
    requires Owned(s) && Does(s, t, a)
    ensures Owned(t)
  {
    forall api | 0 <= api < |t.apis|
      ensures ApiOwns(t, api)
    {
      if api < |s.apis| {
        ApiStepOwns(s, t, a, api);
      }
    }
  }

  lemma StepKeepsApart(s: State, t: State, a: Action, api: nat)
    requires Owned(s) && Apart(s, api) && Does(s, t, a)
    ensures Apart(t, api) <==> !FiresOverRunning(s, a, api)
  {
    forall p | 0 <= p < |s.passes|
      ensures p < |t.passes| && t.passes[p].api == s.passes[p].api
      ensures s.passes[p].Done() ==> t.passes[p].Done()
      ensures !a.Storing? && !a.Failing? ==> t.passes[p].Done() == s.passes[p].Done()
    {
      PassStep(s, t, a, p);
    }
    if api < |s.apis| {
      ApiStep(s, t, a, api);
      assert ApiOwns(s, api);
    }
  }

  lemma {:induction false} OwnedUpTo(run: seq<State>, acts: seq<Action>, i: nat)
    requires Follows(run, acts) && i < |run|
    ensures Owned(run[i])
  {
    if i > 0 {
      OwnedUpTo(run, acts, i - 1);
      assert Does(run[i - 1], run[i], acts[i - 1]);
      StepKeepsOwned(run[i - 1], run[i], acts[i - 1]);
    }
  }

  lemma {:induction false} ApartUpTo(run: seq<State>, acts: seq<Action>, api: nat, i: nat)
    requires Follows(run, acts) && i < |run|
    requires forall n :: 0 <= n < i ==> !FiresOverRunning(run[n], acts[n], api)
    ensures Apart(run[i], api)
  {
    if i > 0 {
      ApartUpTo(run, acts, api, i - 1);
      OwnedUpTo(run, acts, i - 1);
      assert Does(run[i - 1], run[i], acts[i - 1]);
      StepKeepsApart(run[i - 1], run[i], acts[i - 1], api);
    }
  }

  /** Over any run, the passes of an api stay apart in every state if and only if its queue never
      fires while another of its passes is unfinished. */
  lemma PassesStayApartIff(run: seq<State>, acts: seq<Action>, api: nat)
    requires Follows(run, acts)
    ensures (forall i :: 0 <= i < |run| ==> Apart(run[i], api)) <==>
              forall i :: 0 <= i < |acts| ==> !FiresOverRunning(run[i], acts[i], api)
  {
    if forall i :: 0 <= i < |acts| ==> !FiresOverRunning(run[i], acts[i], api) {
      forall i | 0 <= i < |run|
        ensures Apart(run[i], api)
      {
        ApartUpTo(run, acts, api, i);
      }
    } else {
      var i :| 0 <= i < |acts| && FiresOverRunning(run[i], acts[i], api);
      OwnedUpTo(run, acts, i);
      assert Does(run[i], run[i + 1], acts[i]);
      if Apart(run[i], api) {
        StepKeepsApart(run[i], run[i + 1], acts[i], api);
      }
    }
  }

  // The guard a process could check: whether a queue waits when a pass is started.

  /** A queue waits while a pass runs that is not the one it waits for. */
  predicate Exposed(s: State, api: nat) {
    api < |s.apis| && s.apis[api].queued.Some? && s.apis[api].running.Some? && s.apis[api].running != s.apis[api].queued
  }

  /** `ingestNow` or the timer starts a pass while a queue waits. */
  predicate StartsOverQueue(s: State, a: Action, api: nat) {
    Starts(a, api) && api < |s.apis| && s.apis[api].queued.Some?
  }

  lemma ExposedStep(s: State, t: State, a: Action, api: nat)
    requires Owned(s) && Does(s, t, a)
    ensures Exposed(t, api) <==>
              || StartsOverQueue(s, a, api)
              || (Exposed(s, api) && !Fires(a, api) && !(a.Settling? && a.api == api))
  {
    if api < |s.apis| {
      ApiStep(s, t, a, api);
      assert ApiOwns(s, api);
    }
  }

  lemma {:induction false} ExposedSince(run: seq<State>, acts: seq<Action>, api: nat, i: nat) returns (k: nat)
    requires Follows(run, acts) && i < |run| && Exposed(run[i], api)
    ensures k < i && StartsOverQueue(run[k], acts[k], api)
  {
    assert i > 0;
    OwnedUpTo(run, acts, i - 1);
    assert Does(run[i - 1], run[i], acts[i - 1]);
    ExposedStep(run[i - 1], run[i], acts[i - 1], api);
    if StartsOverQueue(run[i - 1], acts[i - 1], api) {
      k := i - 1;
    } else {
      k := ExposedSince(run, acts, api, i - 1);
    }
  }

  /** A run has a state in which a queue waits behind a pass other than the running one if and only if
      some pass of the api is started while its queue waits; without one its passes stay apart. */
  lemma ExposedIffStartedOverQueue(run: seq<State>, acts: seq<Action>, api: nat)
    requires Follows(run, acts)
    ensures (exists i :: 0 <= i < |run| && Exposed(run[i], api)) <==>
              exists i :: 0 <= i < |acts| && StartsOverQueue(run[i], acts[i], api)
    ensures (forall i :: 0 <= i < |acts| ==> !StartsOverQueue(run[i], acts[i], api)) ==>
              forall i :: 0 <= i < |run| ==> Apart(run[i], api)
  {
    if i :| 0 <= i < |run| && Exposed(run[i], api) {
      var k := ExposedSince(run, acts, api, i);
    }
    if i :| 0 <= i < |acts| && StartsOverQueue(run[i], acts[i], api) {
      OwnedUpTo(run, acts, i);
      assert Does(run[i], run[i + 1], acts[i]);
      ExposedStep(run[i], run[i + 1], acts[i], api);
    }
    forall i | 0 <= i < |acts| && FiresOverRunning(run[i], acts[i], api)
      ensures Exposed(run[i], api)
    {
      assert Does(run[i], run[i + 1], acts[i]);
    }
    PassesStayApartIff(run, acts, api);
  }

  /** And the guard is no stricter than it must be: right after an unfinished pass is started while a
      queue waits, the queue can fire, and then the passes are not apart. */
  lemma StartOverQueueCanOverlap(run: seq<State>, acts: seq<Action>, api: nat) returns (t: State)
    requires Follows(run, acts) && acts != [] && StartsOverQueue(run[|acts| - 1], acts[|acts| - 1], api)
    requires !run[|acts|].passes[|run[|acts|].passes| - 1].Done()
    ensures Does(run[|acts|], t, Firing(api, [], true)) && !Apart(t, api)
  {
    var s, u := run[|acts| - 1], run[|acts|];
    assert Does(s, u, acts[|acts| - 1]);
    OwnedUpTo(run, acts, |acts| - 1);
    assert ApiOwns(s, api);
    OwnedUpTo(run, acts, |acts|);
    assert ApiOwns(u, api);
    ApiStep(s, u, acts[|acts| - 1], api);
    t := u.(passes := u.passes + [NewPass(u.machines, api, [], true)],
            apis := u.apis[api := Api(Some(|u.passes|), None)],
            waiters := Moved(u.waiters, api, |u.passes|));
    assert Fire(u, t, api, [], true);
    assert t.passes[|u.passes| - 1] == u.passes[|u.passes| - 1];
  }

  // ---------------------------------------------------------------------------
  // Passes that say they are partial
  // ---------------------------------------------------------------------------

  /** A pass is started whose discovery fails. */
  predicate StartsBlind(a: Action) {
    match a
    case Calling(_, _, blind) => blind
    case Ticking(_, _, blind) => blind
    case Firing(_, _, blind) => blind
    case _ => false
  }

  /** A machine's poll fails in pass `p`. */
  predicate FailsIn(a: Action, p: nat) {
    a.Failing? && a.pass == p
  }

  ghost predicate Partial(s: State, p: nat) {
    p < |s.passes| && !s.passes[p].Complete()
  }

  lemma PartialStep(s: State, t: State, a: Action, p: nat)
    requires Does(s, t, a)
    ensures p < |s.passes| ==> p < |t.passes|
    ensures p < |s.passes| && (s.passes[p].blind || s.passes[p].failed != {}) ==>
              t.passes[p].blind || t.passes[p].failed != {}
    ensures (StartsBlind(a) && p == |s.passes|) || FailsIn(a, p) ==>
              p < |t.passes| && (t.passes[p].blind || t.passes[p].failed != {})
  {
    if FailsIn(a, p) {
      assert Target(s, p) in t.passes[p].failed;
    }
  }

  lemma {:induction false} StaysPartial(run: seq<State>, acts: seq<Action>, i: nat, j: nat, p: nat)
    requires Follows(run, acts) && i <= j < |run| && p < |run[i].passes|
    requires run[i].passes[p].blind || run[i].passes[p].failed != {}
    ensures p < |run[j].passes| && (run[j].passes[p].blind || run[j].passes[p].failed != {})
    decreases j
  {
    if i < j {
      StaysPartial(run, acts, i, j - 1, p);
      assert Does(run[j - 1], run[j], acts[j - 1]);
      PartialStep(run[j - 1], run[j], acts[j - 1], p);
    }
  }

  /** A pass whose discovery failed, or a poll of which failed, never counts as complete, however it
      ends: its callers are told. */
  lemma FailuresAreReported(run: seq<State>, acts: seq<Action>, i: nat, j: nat, p: nat)
    requires Follows(run, acts) && i < j < |run|
    requires (StartsBlind(acts[i]) && p == |run[i].passes|) || FailsIn(acts[i], p)
    ensures Partial(run[j], p)
  {
    assert Does(run[i], run[i + 1], acts[i]);
    PartialStep(run[i], run[i + 1], acts[i], p);
    StaysPartial(run, acts, i + 1, j, p);
  }

  lemma Extend(run: seq<State>, t: State, a: Action) returns (r: seq<State>)
    requires IsRun(run) && Does(run[|run| - 1], t, a)
    ensures IsRun(r) && r[|r| - 1] == t
  {
    r := run + [t];
    assert Step(run[|run| - 1], t);
  }

  /** A pass that is over, with a caller queued behind it. */
  lemma QueueBehindFinished(ms: seq<Machine>) returns (run: seq<State>)
    requires ms == [Machine("m", BOOT, [])]
    ensures IsRun(run)
    ensures run[|run| - 1] == State(ms, EMPTY, [NewPass(ms, 0, [], true)], [Api(Some(0), Some(0))],
                                    [Waiter(Lengths(ms), 0, OnPass(0)), Waiter(Lengths(ms), 1, OnQueue(0))])
  {
    var s0 := State(ms, EMPTY, [], [], []);
    var s1 := s0.(apis := [Api(None, None)]);
    var s2 := s1.(passes := [NewPass(ms, 0, [], true)], apis := [Api(Some(0), None)],
                  waiters := [Waiter(Lengths(ms), 0, OnPass(0))]);
    assert IsRun([s0]);
    run := Extend([s0], s1, Booting);
    run := Extend(run, s2, Calling(0, [], true));
    var queued := s2.waiters + [Waiter(Lengths(ms), 1, OnQueue(0))];
    run := Extend(run, s2.(apis := [Api(Some(0), Some(0))], waiters := queued), Queueing(0));
  }

  /** Two passes of one api can run at once: a call that comes between a pass's end and its queue's
      start begins one of its own. The barrier does not need them apart. */
  lemma PassesCanOverlap() returns (run: seq<State>)
    ensures IsRun(run)
    ensures var s := run[|run| - 1];
            |s.apis| == 1 && |s.passes| == 3 && !s.passes[1].Done() && !s.passes[2].Done()
  {
    var ms := [Machine("m", BOOT, [])];
    run := QueueBehindFinished(ms);
    var s := run[|run| - 1];
    var s4 := s.(apis := [Api(None, Some(0))]);
    run := Extend(run, s4, Settling(0, 0));
    var s5 := s4.(passes := s4.passes + [NewPass(ms, 0, [0], false)], apis := [Api(Some(1), Some(0))],
                  waiters := s4.waiters + [Waiter(Lengths(ms), 1, OnPass(1))]);
    run := Extend(run, s5, Calling(0, [0], false));
    run := Extend(run, s5.(passes := s5.passes + [NewPass(ms, 0, [0], false)], apis := [Api(Some(2), None)],
                           waiters := Moved(s5.waiters, 0, 2)), Firing(0, [0], false));
  }
}
