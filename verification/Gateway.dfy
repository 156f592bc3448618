/** The api's tables and the transactions on them: keys, the usage log, and spend.
    Money is in micro-dollars. A transaction is one step. Keys are never deleted. */
module Gateway {
  import opened Wrappers
  import opened UsageIds
  import opened Rows

  datatype Status = Active | OverBudget | Revoked

  datatype KeyType = Top | Derived

  datatype Key = Key(team: string, name: string, keyType: KeyType, keyHash: Option<string>, models: seq<string>,
                     budget: Option<int>, status: Status, parent: Option<KeyId>, root: Option<KeyId>,
                     expiresAt: Option<int>)

  /** A stored usage row with the cost it was priced at (None when no price is known). */
  datatype LogRow = LogRow(row: UsageRow, cost: Option<int>)

  function RowsIn(log: seq<LogRow>): seq<UsageRow> {
    seq(|log|, i requires 0 <= i < |log| => log[i].row)
  }

  datatype Spend = Spend(spent: int, count: nat)

  datatype Db = Db(keys: map<KeyId, Key>, log: seq<LogRow>, spend: map<KeyId, Spend>)

  const EMPTY := Db(map[], [], map[])

  function SpentOn(spend: map<KeyId, Spend>, k: KeyId): Spend {
    if k in spend then spend[k] else Spend(0, 0)
  }

  // ---------------------------------------------------------------------------
  // What the log says a key has spent
  // ---------------------------------------------------------------------------

  predicate Billed(l: LogRow) {
    l.cost.Some? && l.cost.value > 0
  }

  /** A row counts for its key and for its key's root, once when they are the same. */
  predicate CountsFor(l: LogRow, k: KeyId) {
    Billed(l) && (l.row.keyId == k || l.row.rootKeyId == Some(k))
  }

  function Total(log: seq<LogRow>, k: KeyId): Spend {
    if log == [] then Spend(0, 0)
    else
      var rest := Total(log[1..], k);
      if CountsFor(log[0], k) then Spend(rest.spent + log[0].cost.value, rest.count + 1) else rest
  }

  lemma {:induction false} TotalOfConcat(a: seq<LogRow>, b: seq<LogRow>, k: KeyId)
    ensures Total(a + b, k)
         == Spend(Total(a, k).spent + Total(b, k).spent, Total(a, k).count + Total(b, k).count)
  {
    if a == [] {
      assert a + b == b;
    } else {
      assert (a + b)[1..] == a[1..] + b;
      TotalOfConcat(a[1..], b, k);
    }
  }

  /** The total is zero exactly when no row counts. */
  lemma {:induction false} TotalOfNone(log: seq<LogRow>, k: KeyId)
    ensures Total(log, k).count == 0 <==> !exists l :: l in log && CountsFor(l, k)
    ensures Total(log, k).count == 0 ==> Total(log, k).spent == 0
    ensures Total(log, k).spent >= Total(log, k).count
  {
    if log != [] {
      TotalOfNone(log[1..], k);
      assert log[0] in log;
      assert forall l :: l in log[1..] ==> l in log;
      assert forall l :: l in log ==> l == log[0] || l in log[1..];
    }
  }

  // ---------------------------------------------------------------------------
  // Ingest: insert the new rows of a page, charge them, flip keys
  // ---------------------------------------------------------------------------

  function IdsOf(log: seq<LogRow>): set<UsageId> {
    set i | 0 <= i < |log| :: log[i].row.usageId
  }

  /** INSERT ... WHERE EXISTS (key) ON CONFLICT (usage_id) DO NOTHING RETURNING. */
  function NewRows(have: set<UsageId>, keys: map<KeyId, Key>, rows: seq<UsageRow>,
                   price: UsageRow -> Option<int>): seq<LogRow>
    decreases |rows|
  {
    if rows == [] then []
    else if rows[0].keyId in keys && rows[0].usageId !in have then
      [LogRow(rows[0], price(rows[0]))] + NewRows(have + {rows[0].usageId}, keys, rows[1..], price)
    else NewRows(have, keys, rows[1..], price)
  }

  function ChargedKeys(keys: map<KeyId, Key>, ins: seq<LogRow>): set<KeyId> {
    set k | k in keys && exists l :: l in ins && CountsFor(l, k)
  }

  function AddSpend(spend: map<KeyId, Spend>, charged: set<KeyId>, ins: seq<LogRow>): map<KeyId, Spend> {
    map k | k in spend.Keys + charged ::
      if k in charged then
        Spend(SpentOn(spend, k).spent + Total(ins, k).spent, SpentOn(spend, k).count + Total(ins, k).count)
      else spend[k]
  }

  predicate AtBudget(k: Key, spent: int) {
    k.budget.Some? && spent >= k.budget.value
  }

  function FlipKeys(keys: map<KeyId, Key>, spend: map<KeyId, Spend>, charged: set<KeyId>): map<KeyId, Key> {
    map k | k in keys ::
      if k in charged && keys[k].status == Active && AtBudget(keys[k], SpentOn(spend, k).spent)
      then keys[k].(status := OverBudget) else keys[k]
  }

  function IngestPage(db: Db, rows: seq<UsageRow>, price: UsageRow -> Option<int>): Db {
    var ins := NewRows(IdsOf(db.log), db.keys, rows, price);
    var charged := ChargedKeys(db.keys, ins);
    var spend := AddSpend(db.spend, charged, ins);
    Db(FlipKeys(db.keys, spend, charged), db.log + ins, spend)
  }

  ghost predicate DistinctLog(log: seq<LogRow>) {
    forall i, j :: 0 <= i < j < |log| ==> log[i].row.usageId != log[j].row.usageId
  }

  lemma {:induction false} NewRowsAreNew(have: set<UsageId>, keys: map<KeyId, Key>, rows: seq<UsageRow>,
                                         price: UsageRow -> Option<int>)
    ensures var ins := NewRows(have, keys, rows, price);
            && DistinctLog(ins)
            && forall l :: l in ins ==> l.row.usageId !in have && l.row in rows && l.row.keyId in keys
    decreases |rows|
  {
    if rows != [] {
      var more := if rows[0].keyId in keys && rows[0].usageId !in have then have + {rows[0].usageId} else have;
      NewRowsAreNew(more, keys, rows[1..], price);
    }
  }

  lemma {:induction false} NewRowsCover(have: set<UsageId>, keys: map<KeyId, Key>, rows: seq<UsageRow>,
                                        price: UsageRow -> Option<int>, r: UsageRow)
    requires r in rows && r.keyId in keys
    ensures r.usageId in have + IdsOf(NewRows(have, keys, rows, price))
    decreases |rows|
  {
    var ins := NewRows(have, keys, rows, price);
    if rows[0].keyId in keys && rows[0].usageId !in have {
      assert ins[0].row.usageId == rows[0].usageId;
      var rest := NewRows(have + {rows[0].usageId}, keys, rows[1..], price);
      assert forall i :: 0 <= i < |rest| ==> ins[i + 1] == rest[i];
      if r != rows[0] {
        NewRowsCover(have + {rows[0].usageId}, keys, rows[1..], price, r);
      }
    } else if r != rows[0] {
      NewRowsCover(have, keys, rows[1..], price, r);
    }
  }

  lemma IdsOfConcat(a: seq<LogRow>, b: seq<LogRow>)
    ensures IdsOf(a + b) == IdsOf(a) + IdsOf(b)
  {
    forall u
      ensures u in IdsOf(a + b) <==> u in IdsOf(a) || u in IdsOf(b)
    {
      if i :| 0 <= i < |a| && a[i].row.usageId == u {
        assert (a + b)[i].row.usageId == u;
      }
      if i :| 0 <= i < |b| && b[i].row.usageId == u {
        assert (a + b)[|a| + i].row.usageId == u;
      }
    }
  }

  // ---------------------------------------------------------------------------
  // The other transactions
  // ---------------------------------------------------------------------------

  /** UPDATE of budget_usd with its trigger: a raise past the spend reactivates. */
  function SetBudget(db: Db, id: KeyId, budget: Option<int>): Db
    requires id in db.keys
  {
    var k := db.keys[id].(budget := budget);
    var raised := budget.None? || SpentOn(db.spend, id).spent < budget.value;
    db.(keys := db.keys[id := if k.status == OverBudget && raised then k.(status := Active) else k])
  }

  /** UPDATE ... WHERE id = $1 OR root_key_id = $1. */
  function RevokeTree(db: Db, id: KeyId): Db {
    db.(keys := map k | k in db.keys ::
          if k == id || db.keys[k].root == Some(id) then db.keys[k].(status := Revoked) else db.keys[k])
  }

  function AddKey(db: Db, id: KeyId, key: Key): Db {
    db.(keys := db.keys[id := key])
  }

  datatype Op =
    | Ingest(rows: seq<UsageRow>, price: UsageRow -> Option<int>)
    | NewKey(id: KeyId, key: Key)
    | EditBudget(id: KeyId, budget: Option<int>)
    | Revoke(id: KeyId)

  /** New keys are active under an id nothing refers to yet; the other writes name a key. */
  ghost predicate Enabled(db: Db, op: Op) {
    match op
    case Ingest(_, _) => true
    case NewKey(id, key) =>
      && id !in db.keys && key.status == Active
      && forall l :: l in db.log ==> l.row.keyId != id && l.row.rootKeyId != Some(id)
    case EditBudget(id, _) => id in db.keys
    case Revoke(id) => id in db.keys
  }

  ghost function Apply(db: Db, op: Op): Db
    requires Enabled(db, op)
  {
    match op
    case Ingest(rows, price) => IngestPage(db, rows, price)
    case NewKey(id, key) => AddKey(db, id, key)
    case EditBudget(id, budget) => SetBudget(db, id, budget)
    case Revoke(id) => RevokeTree(db, id)
  }

  ghost predicate IsRun(run: seq<Db>, ops: seq<Op>) {
    && |run| == |ops| + 1 && run[0] == EMPTY
    && forall i :: 0 <= i < |ops| ==> Enabled(run[i], ops[i]) && run[i + 1] == Apply(run[i], ops[i])
  }

  // ---------------------------------------------------------------------------
  // Spend conservation
  // ---------------------------------------------------------------------------

  ghost predicate SpendOk(db: Db) {
    && DistinctLog(db.log)
    && db.spend.Keys <= db.keys.Keys
    && forall k :: k in db.keys ==> SpentOn(db.spend, k) == Total(db.log, k)
  }

  lemma ChargesAddUp(db: Db, ins: seq<LogRow>, k: KeyId)
    requires k in db.keys && SpentOn(db.spend, k) == Total(db.log, k)
    ensures SpentOn(AddSpend(db.spend, ChargedKeys(db.keys, ins), ins), k) == Total(db.log + ins, k)
  {
    TotalOfConcat(db.log, ins, k);
    TotalOfNone(ins, k);
  }

  lemma IngestKeepsSpend(db: Db, rows: seq<UsageRow>, price: UsageRow -> Option<int>)
    requires SpendOk(db)
    ensures SpendOk(IngestPage(db, rows, price))
  {
    var ins := NewRows(IdsOf(db.log), db.keys, rows, price);
    NewRowsAreNew(IdsOf(db.log), db.keys, rows, price);
    forall k | k in db.keys
      ensures SpentOn(AddSpend(db.spend, ChargedKeys(db.keys, ins), ins), k) == Total(db.log + ins, k)
    {
      ChargesAddUp(db, ins, k);
    }
    forall i, j | 0 <= i < |db.log| && 0 <= j < |ins|
      ensures db.log[i].row.usageId != ins[j].row.usageId
    {
      assert db.log[i].row.usageId in IdsOf(db.log) && ins[j] in ins;
    }
  }

  lemma ApplyKeepsSpend(db: Db, op: Op)
    requires SpendOk(db) && Enabled(db, op)
    ensures SpendOk(Apply(db, op))
  {
    match op
    case Ingest(rows, price) => IngestKeepsSpend(db, rows, price);
    case NewKey(id, key) => TotalOfNone(db.log, id);
    case EditBudget(id, budget) =>
    case Revoke(id) =>
  }

  /** In every reachable state each key's spend and request count are the sum and number of the
      positive-cost log rows of the key or rooted at it, each row once, whatever was re-polled. */
  lemma {:induction false} SpendIsConserved(run: seq<Db>, ops: seq<Op>, i: nat)
    requires IsRun(run, ops) && i < |run|
    ensures SpendOk(run[i])
  {
    if i > 0 {
      SpendIsConserved(run, ops, i - 1);
      ApplyKeepsSpend(run[i - 1], ops[i - 1]);
    }
  }

  lemma NothingInserted(db: Db, rows: seq<UsageRow>, price: UsageRow -> Option<int>)
    requires NewRows(IdsOf(db.log), db.keys, rows, price) == []
    ensures IngestPage(db, rows, price) == db
  {
  }

  lemma IngestedIds(db: Db, rows: seq<UsageRow>, price: UsageRow -> Option<int>, r: UsageRow)
    requires r in rows && r.keyId in db.keys
    ensures r.usageId in IdsOf(IngestPage(db, rows, price).log)
  {
    IdsOfConcat(db.log, NewRows(IdsOf(db.log), db.keys, rows, price));
    NewRowsCover(IdsOf(db.log), db.keys, rows, price, r);
  }

  /** Ingesting the same page again, at whatever prices, changes nothing: no row is charged twice. */
  lemma ReingestIsIdle(db: Db, rows: seq<UsageRow>, price: UsageRow -> Option<int>, again: UsageRow -> Option<int>)
    ensures IngestPage(IngestPage(db, rows, price), rows, again) == IngestPage(db, rows, price)
  {
    var once := IngestPage(db, rows, price);
    forall r | r in rows && r.keyId in once.keys
      ensures r.usageId in IdsOf(once.log)
    {
      IngestedIds(db, rows, price, r);
    }
    NothingNew(IdsOf(once.log), once.keys, rows, again);
    NothingInserted(once, rows, again);
  }

  lemma {:induction false} NothingNew(have: set<UsageId>, keys: map<KeyId, Key>, rows: seq<UsageRow>,
                                      price: UsageRow -> Option<int>)
    requires forall r :: r in rows && r.keyId in keys ==> r.usageId in have
    ensures NewRows(have, keys, rows, price) == []
  {
    if rows != [] {
      assert rows[0] in rows;
      assert forall r :: r in rows[1..] ==> r in rows;
      NothingNew(have, keys, rows[1..], price);
    }
  }

  // ---------------------------------------------------------------------------
  // A root's spend is its own plus its children's
  // ---------------------------------------------------------------------------

  /** Rows carry the lineage of their key. A top-level key's own row may come without a root. */
  ghost predicate LineageMatches(db: Db) {
    forall l :: l in db.log ==>
      && l.row.keyId in db.keys
      && var k := db.keys[l.row.keyId];
      && k.root == (if k.parent.None? then Some(l.row.keyId) else k.parent)
      && (l.row.rootKeyId == k.root || (k.parent.None? && l.row.rootKeyId.None?))
  }

  function OwnTotal(log: seq<LogRow>, k: KeyId): int {
    if log == [] then 0
    else OwnTotal(log[1..], k) + if Billed(log[0]) && log[0].row.keyId == k then log[0].cost.value else 0
  }

  function SumTotals(log: seq<LogRow>, ks: seq<KeyId>): int {
    if ks == [] then 0 else Total(log, ks[0]).spent + SumTotals(log, ks[1..])
  }

  /** `cs` lists the derived keys of `root`, each once. */
  ghost predicate Children(keys: map<KeyId, Key>, root: KeyId, cs: seq<KeyId>) {
    && (forall i, j :: 0 <= i < j < |cs| ==> cs[i] != cs[j])
    && (forall c :: c in cs <==> c in keys && keys[c].parent == Some(root))
  }

  lemma {:induction false} SumOfOneMore(l: LogRow, rest: seq<LogRow>, cs: seq<KeyId>)
    requires forall i, j :: 0 <= i < j < |cs| ==> cs[i] != cs[j]
    requires forall c :: c in cs ==> (CountsFor(l, c) <==> Billed(l) && l.row.keyId == c)
    ensures SumTotals([l] + rest, cs)
         == SumTotals(rest, cs) + (if Billed(l) && l.row.keyId in cs then l.cost.value else 0)
  {
    if cs != [] {
      assert ([l] + rest)[1..] == rest;
      assert cs[0] in cs;
      assert forall c :: c in cs[1..] ==> c in cs;
      SumOfOneMore(l, rest, cs[1..]);
      assert l.row.keyId in cs <==> l.row.keyId == cs[0] || l.row.keyId in cs[1..];
      assert cs[0] !in cs[1..];
    }
  }

  lemma {:induction false} SumOfNothing(cs: seq<KeyId>)
    ensures SumTotals([], cs) == 0
  {
    if cs != [] {
      SumOfNothing(cs[1..]);
    }
  }

  lemma {:induction false} RollUpOfLog(log: seq<LogRow>, keys: map<KeyId, Key>, root: KeyId, cs: seq<KeyId>)
    requires LineageMatches(Db(keys, log, map[])) && Children(keys, root, cs)
    requires root in keys && keys[root].parent.None?
    requires forall c :: c in cs ==> c != root && (forall k :: k in keys ==> keys[k].parent != Some(c))
    ensures Total(log, root).spent == OwnTotal(log, root) + SumTotals(log, cs)
  {
    if log == [] {
      SumOfNothing(cs);
    } else {
      var l, rest := log[0], log[1..];
      assert l in log && forall x :: x in rest ==> x in log;
      RollUpOfLog(rest, keys, root, cs);
      assert log == [l] + rest;
      SumOfOneMore(l, rest, cs);
    }
  }

  /** A root's spend is what its own requests cost plus the spend of all its derived keys. */
  lemma RootSpendRollsUp(db: Db, root: KeyId, cs: seq<KeyId>)
    requires SpendOk(db) && LineageMatches(db) && Children(db.keys, root, cs)
    requires root in db.keys && db.keys[root].parent.None?
    requires forall c :: c in cs ==> forall k :: k in db.keys ==> db.keys[k].parent != Some(c)
    ensures SpentOn(db.spend, root).spent == OwnTotal(db.log, root) + SumSpent(db.spend, cs)
  {
    assert LineageMatches(Db(db.keys, db.log, map[]));
    RollUpOfLog(db.log, db.keys, root, cs);
    SpentIsTotals(db, cs);
  }

  function SumSpent(spend: map<KeyId, Spend>, ks: seq<KeyId>): int {
    if ks == [] then 0 else SpentOn(spend, ks[0]).spent + SumSpent(spend, ks[1..])
  }

  lemma {:induction false} SpentIsTotals(db: Db, cs: seq<KeyId>)
    requires SpendOk(db) && forall c :: c in cs ==> c in db.keys
    ensures SumSpent(db.spend, cs) == SumTotals(db.log, cs)
  {
    if cs != [] {
      assert cs[0] in cs && forall c :: c in cs[1..] ==> c in cs;
      SpentIsTotals(db, cs[1..]);
    }
  }

  // ---------------------------------------------------------------------------
  // The budget state machine
  // ---------------------------------------------------------------------------

  /** over_budget is never wrong: there is a budget and it is spent. */
  ghost predicate OverIsSpent(db: Db) {
    forall k :: k in db.keys && db.keys[k].status == OverBudget ==> AtBudget(db.keys[k], SpentOn(db.spend, k).spent)
  }

  /** No active key that has spent anything is at or past its budget. */
  ghost predicate NoActiveOver(db: Db) {
    forall k :: k in db.keys && db.keys[k].status == Active && SpentOn(db.spend, k).count > 0
      ==> !AtBudget(db.keys[k], SpentOn(db.spend, k).spent)
  }

  predicate Lowers(old_: Option<int>, new_: Option<int>) {
    new_.Some? && (old_.None? || new_.value < old_.value)
  }

  ghost predicate NeverLowers(db: Db, op: Op) {
    op.EditBudget? && op.id in db.keys ==> !Lowers(db.keys[op.id].budget, op.budget)
  }

  lemma SpendOnlyGrows(db: Db, ins: seq<LogRow>, k: KeyId)
    ensures var spend := AddSpend(db.spend, ChargedKeys(db.keys, ins), ins);
            && SpentOn(spend, k).spent >= SpentOn(db.spend, k).spent
            && (k in db.keys && k !in ChargedKeys(db.keys, ins) ==> SpentOn(spend, k) == SpentOn(db.spend, k))
  {
    TotalOfNone(ins, k);
  }

  lemma ApplyKeepsOverIsSpent(db: Db, op: Op)
    requires Enabled(db, op) && OverIsSpent(db)
    ensures OverIsSpent(Apply(db, op))
  {
    if op.Ingest? {
      var ins := NewRows(IdsOf(db.log), db.keys, op.rows, op.price);
      forall k | k in db.keys
        ensures SpentOn(Apply(db, op).spend, k).spent >= SpentOn(db.spend, k).spent
      {
        SpendOnlyGrows(db, ins, k);
      }
    }
  }

  /** Right after an ingest no key it charged is active at or past its budget. */
  lemma IngestLeavesNoChargedKeyOver(db: Db, rows: seq<UsageRow>, price: UsageRow -> Option<int>, k: KeyId)
    requires k in ChargedKeys(db.keys, NewRows(IdsOf(db.log), db.keys, rows, price))
    ensures var after := IngestPage(db, rows, price);
            && k in after.keys
            && !(after.keys[k].status == Active && AtBudget(after.keys[k], SpentOn(after.spend, k).spent))
  {
  }

  /** The edit leaves an active key that has spent anything with its spend at or past the new budget:
      only ingest flips keys, on their next charge. */
  predicate CutsToSpend(db: Db, op: Op) {
    && op.EditBudget? && op.id in db.keys
    && db.keys[op.id].status == Active && SpentOn(db.spend, op.id).count > 0
    && op.budget.Some? && SpentOn(db.spend, op.id).spent >= op.budget.value
  }

  lemma EditBudgetKeepsNoActiveOver(db: Db, id: KeyId, budget: Option<int>)
    requires id in db.keys && NoActiveOver(db)
    ensures NoActiveOver(SetBudget(db, id, budget)) <==> !CutsToSpend(db, EditBudget(id, budget))
  {
  }

  /** A transaction keeps `NoActiveOver` exactly when it is no such edit. */
  lemma ApplyKeepsNoActiveOver(db: Db, op: Op)
    requires Enabled(db, op) && SpendOk(db) && NoActiveOver(db)
    ensures NoActiveOver(Apply(db, op)) <==> !CutsToSpend(db, op)
  {
    match op
    case Ingest(rows, price) =>
      var ins := NewRows(IdsOf(db.log), db.keys, rows, price);
      forall k | k in db.keys && k !in ChargedKeys(db.keys, ins)
        ensures SpentOn(Apply(db, op).spend, k) == SpentOn(db.spend, k)
      {
        SpendOnlyGrows(db, ins, k);
      }
    case NewKey(id, key) => assert id !in db.spend;
    case EditBudget(id, budget) => EditBudgetKeepsNoActiveOver(db, id, budget);
    case Revoke(id) =>
  }

  lemma {:induction false} NoActiveOverUpTo(run: seq<Db>, ops: seq<Op>, i: nat)
    requires IsRun(run, ops) && i < |run| && forall n :: 0 <= n < i ==> !CutsToSpend(run[n], ops[n])
    ensures NoActiveOver(run[i])
  {
    if i > 0 {
      NoActiveOverUpTo(run, ops, i - 1);
      SpendIsConserved(run, ops, i - 1);
      ApplyKeepsNoActiveOver(run[i - 1], ops[i - 1]);
    }
  }

  /** Over any run, no active key that has spent anything is ever at or past its budget if and only if
      no edit lowers an active key's budget to its spend or below. */
  lemma NoActiveOverIff(run: seq<Db>, ops: seq<Op>)
    requires IsRun(run, ops)
    ensures (forall i :: 0 <= i < |run| ==> NoActiveOver(run[i])) <==>
              forall n :: 0 <= n < |ops| ==> !CutsToSpend(run[n], ops[n])
  {
    if n :| 0 <= n < |ops| && CutsToSpend(run[n], ops[n]) {
      SpendIsConserved(run, ops, n);
      if NoActiveOver(run[n]) {
        ApplyKeepsNoActiveOver(run[n], ops[n]);
        assert !NoActiveOver(run[n + 1]);
      }
    } else {
      forall i | 0 <= i < |run|
        ensures NoActiveOver(run[i])
      {
        NoActiveOverUpTo(run, ops, i);
      }
    }
  }

  lemma ApplyKeepsRevoked(db: Db, op: Op, k: KeyId)
    requires Enabled(db, op) && k in db.keys
    ensures k in Apply(db, op).keys
    ensures db.keys[k].status == Revoked ==> Apply(db, op).keys[k].status == Revoked
  {
  }

  lemma {:induction false} OverIsSpentAt(run: seq<Db>, ops: seq<Op>, i: nat)
    requires IsRun(run, ops) && i < |run|
    ensures OverIsSpent(run[i])
  {
    if i > 0 {
      OverIsSpentAt(run, ops, i - 1);
      ApplyKeepsOverIsSpent(run[i - 1], ops[i - 1]);
    }
  }

  lemma {:induction false} RevokedIsFinal(run: seq<Db>, ops: seq<Op>, i: nat, j: nat, k: KeyId)
    requires IsRun(run, ops) && i <= j < |run| && k in run[i].keys && run[i].keys[k].status == Revoked
    ensures k in run[j].keys && run[j].keys[k].status == Revoked
    decreases j
  {
    if i < j {
      RevokedIsFinal(run, ops, i, j - 1, k);
      ApplyKeepsRevoked(run[j - 1], ops[j - 1], k);
    }
  }

  lemma {:induction false} NeverLoweredAt(run: seq<Db>, ops: seq<Op>, i: nat)
    requires IsRun(run, ops) && i < |run| && forall n :: 0 <= n < |ops| ==> NeverLowers(run[n], ops[n])
    ensures NoActiveOver(run[i])
  {
    if i > 0 {
      NeverLoweredAt(run, ops, i - 1);
      SpendIsConserved(run, ops, i - 1);
      assert NeverLowers(run[i - 1], ops[i - 1]);
      ApplyKeepsNoActiveOver(run[i - 1], ops[i - 1]);
    }
  }

  /** Over all runs: revoked is final and over_budget always means spent; and if budgets are only
      ever raised or removed, no active key with spend is ever at or past its budget. */
  lemma BudgetsOverRuns(run: seq<Db>, ops: seq<Op>, i: nat, j: nat, k: KeyId)
    requires IsRun(run, ops) && i <= j < |run|
    ensures OverIsSpent(run[j])
    ensures k in run[i].keys && run[i].keys[k].status == Revoked ==>
              k in run[j].keys && run[j].keys[k].status == Revoked
    ensures (forall n :: 0 <= n < |ops| ==> NeverLowers(run[n], ops[n])) ==> NoActiveOver(run[j])
  {
    OverIsSpentAt(run, ops, j);
    if k in run[i].keys && run[i].keys[k].status == Revoked {
      RevokedIsFinal(run, ops, i, j, k);
    }
    if forall n :: 0 <= n < |ops| ==> NeverLowers(run[n], ops[n]) {
      NeverLoweredAt(run, ops, j);
    }
  }
}
