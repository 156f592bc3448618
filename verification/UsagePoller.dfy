/** One poller copying one machine's rows into the gateway, page by page. */
module UsagePoller {
  import opened Wrappers
  import opened UsageIds
  import opened Rows
  import opened Gateway

  const PAGE_LIMIT: nat := 5000

  function Newer(after: string): UsageRow -> bool {
    (r: UsageRow) => LexLess(after, Print(r.usageId))
  }

  /** The rows a machine holds after a cursor, in id order. */
  function Backlog(table: seq<UsageRow>, after: string): seq<UsageRow> {
    SortRows(Filter(table, Newer(after)))
  }

  /** The machine's answer to the poll token: GET /usage?after=...&limit=5000. */
  function Fetch(table: seq<UsageRow>, after: string): seq<UsageRow> {
    FirstN(Backlog(table, after), PAGE_LIMIT)
  }

  /** A page is the first 5000 rows of the backlog, or all of it. */
  lemma FetchedRows(table: seq<UsageRow>, after: string)
    ensures var page, b := Fetch(table, after), Backlog(table, after);
            page <= b && (|page| == 5000 < |b| || page == b)
  {
  }

  // ---------------------------------------------------------------------------
  // What an ingest owes its callers, said on the offered rows and their prices
  // ---------------------------------------------------------------------------

  /** The new rows among those offered: they name an existing key, were not stored before, and come
      once each. */
  ghost predicate AreNew(log: seq<LogRow>, keys: map<KeyId, Key>, offered: UsageRow -> bool, ins: seq<UsageRow>) {
    && (forall i, j :: 0 <= i < j < |ins| ==> ins[i].usageId != ins[j].usageId)
    && (forall r :: r in ins ==> offered(r) && r.keyId in keys && !StoredId(log, r.usageId))
    && (forall r :: offered(r) && r.keyId in keys && !StoredId(log, r.usageId) ==> Offers(ins, r.usageId))
  }

  ghost predicate StoredId(log: seq<LogRow>, u: UsageId) {
    exists i :: 0 <= i < |log| && log[i].row.usageId == u
  }

  ghost predicate Offers(ins: seq<UsageRow>, u: UsageId) {
    exists i :: 0 <= i < |ins| && ins[i].usageId == u
  }

  /** Each row with the price it has. */
  ghost function AtPrices(ins: seq<UsageRow>, price: UsageRow -> Option<int>): seq<LogRow> {
    seq(|ins|, i requires 0 <= i < |ins| => LogRow(ins[i], price(ins[i])))
  }

  /** What the rows with a positive price add to a key: those of the key, or of its tree. */
  ghost function Due(ins: seq<UsageRow>, price: UsageRow -> Option<int>, k: KeyId): Spend {
    if ins == [] then Spend(0, 0)
    else
      var p, rest := price(ins[0]), Due(ins[1..], price, k);
      if p.Some? && p.value > 0 && (ins[0].keyId == k || ins[0].rootKeyId == Some(k))
      then Spend(rest.spent + p.value, rest.count + 1) else rest
  }

  ghost function SpentBefore(spend: map<KeyId, Spend>, k: KeyId): Spend {
    if k in spend then spend[k] else Spend(0, 0)
  }

  /** The key after it was charged: over budget exactly when it was active, was charged for some row,
      and has by then spent its budget. */
  ghost predicate ChargedFor(key: Key, was: Spend, due: Spend, key2: Key, now: Spend) {
    && now == Spend(was.spent + due.spent, was.count + due.count)
    && key2.(status := key.status) == key
    && key2.status == (if key.status == Active && due.count > 0 && key.budget.Some? && now.spent >= key.budget.value
                       then OverBudget else key.status)
  }

  ghost predicate Ingested(db: Db, offered: UsageRow -> bool, price: UsageRow -> Option<int>, t: Db) {
    exists ins :: AreNew(db.log, db.keys, offered, ins) && Booked(db, ins, price, t)
  }

  ghost predicate Booked(db: Db, ins: seq<UsageRow>, price: UsageRow -> Option<int>, t: Db) {
    && t.log == db.log + AtPrices(ins, price) && t.keys.Keys == db.keys.Keys
    && forall k :: k in db.keys ==>
         ChargedFor(db.keys[k], SpentBefore(db.spend, k), Due(ins, price, k), t.keys[k], SpentBefore(t.spend, k))
  }

  lemma {:induction false} NewRowsHavePrices(have: set<UsageId>, keys: map<KeyId, Key>, rows: seq<UsageRow>,
                                             price: UsageRow -> Option<int>)
    ensures var ins := NewRows(have, keys, rows, price); AtPrices(RowsIn(ins), price) == ins
    decreases |rows|
  {
    if rows != [] {
      var isNew := rows[0].keyId in keys && rows[0].usageId !in have;
      NewRowsHavePrices(if isNew then have + {rows[0].usageId} else have, keys, rows[1..], price);
    }
  }

  lemma {:induction false} TotalIsDue(ins: seq<LogRow>, price: UsageRow -> Option<int>, k: KeyId)
    requires AtPrices(RowsIn(ins), price) == ins
    ensures Total(ins, k) == Due(RowsIn(ins), price, k)
  {
    if ins != [] {
      var rest := ins[1..];
      assert RowsIn(ins)[1..] == RowsIn(rest);
      assert AtPrices(RowsIn(rest), price) == rest by {
        forall i | 0 <= i < |rest|
          ensures AtPrices(RowsIn(rest), price)[i] == rest[i]
        {
          assert AtPrices(RowsIn(ins), price)[i + 1] == ins[i + 1];
        }
      }
      TotalIsDue(rest, price, k);
      assert AtPrices(RowsIn(ins), price)[0] == ins[0];
    }
  }

  lemma IdsAreStored(log: seq<LogRow>, u: UsageId)
    ensures u in IdsOf(log) <==> StoredId(log, u)
  {
  }

  lemma NewRowsAreOffered(db: Db, rows: seq<UsageRow>, price: UsageRow -> Option<int>, offered: UsageRow -> bool)
    requires forall r :: offered(r) <==> r in rows
    ensures AreNew(db.log, db.keys, offered, RowsIn(NewRows(IdsOf(db.log), db.keys, rows, price)))
  {
    var new_ := NewRows(IdsOf(db.log), db.keys, rows, price);
    var ins := RowsIn(new_);
    NewRowsAreNew(IdsOf(db.log), db.keys, rows, price);
    forall r | r in ins
      ensures offered(r) && r.keyId in db.keys && !StoredId(db.log, r.usageId)
    {
      var i :| 0 <= i < |ins| && ins[i] == r;
      assert new_[i] in new_;
      IdsAreStored(db.log, r.usageId);
    }
    forall r | offered(r) && r.keyId in db.keys && !StoredId(db.log, r.usageId)
      ensures Offers(ins, r.usageId)
    {
      NewRowsCover(IdsOf(db.log), db.keys, rows, price, r);
      IdsAreStored(db.log, r.usageId);
      var i :| 0 <= i < |new_| && new_[i].row.usageId == r.usageId;
      assert ins[i].usageId == r.usageId;
    }
  }

  /** The ingest stores each new row at its price and charges its key and root by it. */
  lemma IngestIsBooked(db: Db, rows: seq<UsageRow>, price: UsageRow -> Option<int>, offered: UsageRow -> bool)
    requires forall r :: offered(r) <==> r in rows
    ensures Ingested(db, offered, price, IngestPage(db, rows, price))
  {
    var new_ := NewRows(IdsOf(db.log), db.keys, rows, price);
    NewRowsHavePrices(IdsOf(db.log), db.keys, rows, price);
    NewRowsAreOffered(db, rows, price, offered);
    var t := IngestPage(db, rows, price);
    ChargedKeyByKey(db.keys, db.spend, new_);
    forall k | k in db.keys
      ensures ChargedFor(db.keys[k], SpentBefore(db.spend, k), Due(RowsIn(new_), price, k), t.keys[k],
                         SpentBefore(t.spend, k))
    {
      TotalIsDue(new_, price, k);
    }
    assert Booked(db, RowsIn(new_), price, t);
  }

  // ---------------------------------------------------------------------------
  // Two pages in two transactions are one page in one
  // ---------------------------------------------------------------------------

  lemma {:induction false} NewRowsOfConcat(have: set<UsageId>, keys: map<KeyId, Key>, keys2: map<KeyId, Key>,
                                           a: seq<UsageRow>, b: seq<UsageRow>, price: UsageRow -> Option<int>)
    requires keys.Keys == keys2.Keys
    ensures NewRows(have, keys, a + b, price)
         == NewRows(have, keys, a, price)
            + NewRows(have + IdsOf(NewRows(have, keys, a, price)), keys2, b, price)
    decreases |a|
  {
    if a == [] {
      assert a + b == b && have + IdsOf([]) == have;
      SameDomain(have, keys, keys2, b, price);
    } else {
      assert (a + b)[1..] == a[1..] + b && (a + b)[0] == a[0];
      var isNew := a[0].keyId in keys && a[0].usageId !in have;
      var more := if isNew then have + {a[0].usageId} else have;
      NewRowsOfConcat(more, keys, keys2, a[1..], b, price);
      if isNew {
        IdsOfCons(have, LogRow(a[0], price(a[0])), NewRows(more, keys, a[1..], price));
      }
    }
  }

  lemma IdsOfCons(have: set<UsageId>, l: LogRow, rest: seq<LogRow>)
    ensures have + IdsOf([l] + rest) == have + {l.row.usageId} + IdsOf(rest)
  {
    IdsOfConcat([l], rest);
    assert [l][0].row.usageId in IdsOf([l]);
  }

  lemma {:induction false} SameDomain(have: set<UsageId>, keys: map<KeyId, Key>, keys2: map<KeyId, Key>,
                                      b: seq<UsageRow>, price: UsageRow -> Option<int>)
    requires keys.Keys == keys2.Keys
    ensures NewRows(have, keys, b, price) == NewRows(have, keys2, b, price)
    decreases |b|
  {
    if b != [] {
      assert b[0].keyId in keys <==> b[0].keyId in keys2;
      SameDomain(if b[0].keyId in keys && b[0].usageId !in have then have + {b[0].usageId} else have,
                 keys, keys2, b[1..], price);
    }
  }

  lemma ChargedOfConcat(keys: map<KeyId, Key>, i1: seq<LogRow>, i2: seq<LogRow>, k: KeyId)
    requires k in keys
    ensures k in ChargedKeys(keys, i1 + i2) <==> k in ChargedKeys(keys, i1) || k in ChargedKeys(keys, i2)
  {
  }

  /** What a charge adds to a key, charged or not, is the batch's total for it. */
  lemma ChargeAddsTotal(spend: map<KeyId, Spend>, keys: map<KeyId, Key>, ins: seq<LogRow>, k: KeyId)
    requires k in keys
    ensures var t, was := Total(ins, k), SpentOn(spend, k);
            var now := SpentOn(AddSpend(spend, ChargedKeys(keys, ins), ins), k);
            now.spent == was.spent + t.spent && now.count == was.count + t.count
  {
  }

  /** Key by key: its spend grows by the rows that count for it, and it becomes over budget exactly
      when it is active, some row counts for it and its spend is then at its budget. */
  ghost predicate Charged(keys: map<KeyId, Key>, spend: map<KeyId, Spend>, ins: seq<LogRow>,
                          keys2: map<KeyId, Key>, spend2: map<KeyId, Spend>)
  {
    && keys2.Keys == keys.Keys
    && forall k :: k in keys ==> ChargedFor(keys[k], SpentOn(spend, k), Total(ins, k), keys2[k], SpentOn(spend2, k))
  }

  lemma ChargedKeyByKey(keys: map<KeyId, Key>, spend: map<KeyId, Spend>, ins: seq<LogRow>)
    ensures var charged := ChargedKeys(keys, ins);
            var spend2 := AddSpend(spend, charged, ins);
            Charged(keys, spend, ins, FlipKeys(keys, spend2, charged), spend2)
  {
    var charged := ChargedKeys(keys, ins);
    var spend2 := AddSpend(spend, charged, ins);
    forall k | k in keys
      ensures ChargedFor(keys[k], SpentOn(spend, k), Total(ins, k), FlipKeys(keys, spend2, charged)[k],
                         SpentOn(spend2, k))
    {
      ChargeAddsTotal(spend, keys, ins, k);
      TotalOfNone(ins, k);
    }
  }

  /** Charging two batches one after the other is charging them together. */
  lemma SpendOfConcat(db: Db, i1: seq<LogRow>, i2: seq<LogRow>, k: KeyId)
    requires k in db.keys
    ensures var c1, c2, c := ChargedKeys(db.keys, i1), ChargedKeys(db.keys, i2), ChargedKeys(db.keys, i1 + i2);
            && (k in c <==> k in c1 || k in c2)
            && SpentOn(AddSpend(AddSpend(db.spend, c1, i1), c2, i2), k) == SpentOn(AddSpend(db.spend, c, i1 + i2), k)
  {
    ChargedOfConcat(db.keys, i1, i2, k);
    TotalOfConcat(i1, i2, k);
    var s1 := AddSpend(db.spend, ChargedKeys(db.keys, i1), i1);
    ChargeAddsTotal(db.spend, db.keys, i1, k);
    ChargeAddsTotal(s1, db.keys, i2, k);
    ChargeAddsTotal(db.spend, db.keys, i1 + i2, k);
  }

  lemma SpendKeysOfConcat(db: Db, i1: seq<LogRow>, i2: seq<LogRow>, k: KeyId)
    requires db.spend.Keys <= db.keys.Keys && k in db.keys
    ensures k in AddSpend(AddSpend(db.spend, ChargedKeys(db.keys, i1), i1), ChargedKeys(db.keys, i2), i2)
            <==> k in AddSpend(db.spend, ChargedKeys(db.keys, i1 + i2), i1 + i2)
  {
    ChargedOfConcat(db.keys, i1, i2, k);
  }

  lemma SpendMapOfConcat(db: Db, i1: seq<LogRow>, i2: seq<LogRow>)
    requires db.spend.Keys <= db.keys.Keys
    ensures AddSpend(AddSpend(db.spend, ChargedKeys(db.keys, i1), i1), ChargedKeys(db.keys, i2), i2)
         == AddSpend(db.spend, ChargedKeys(db.keys, i1 + i2), i1 + i2)
  {
    var two := AddSpend(AddSpend(db.spend, ChargedKeys(db.keys, i1), i1), ChargedKeys(db.keys, i2), i2);
    var one := AddSpend(db.spend, ChargedKeys(db.keys, i1 + i2), i1 + i2);
    forall k | k in db.keys
      ensures k in two <==> k in one
    {
      SpendKeysOfConcat(db, i1, i2, k);
    }
    assert two.Keys == one.Keys;
    forall k | k in one
      ensures two[k] == one[k]
    {
      SpendOfConcat(db, i1, i2, k);
    }
  }

  lemma FlipsOfConcat(db: Db, i1: seq<LogRow>, i2: seq<LogRow>, k: KeyId)
    requires k in db.keys
    ensures var c1, c2, c := ChargedKeys(db.keys, i1), ChargedKeys(db.keys, i2), ChargedKeys(db.keys, i1 + i2);
            var s1 := AddSpend(db.spend, c1, i1);
            var twice := FlipKeys(FlipKeys(db.keys, s1, c1), AddSpend(s1, c2, i2), c2);
            twice[k] == FlipKeys(db.keys, AddSpend(db.spend, c, i1 + i2), c)[k]
  {
    SpendOfConcat(db, i1, i2, k);
    TotalOfNone(i2, k);
  }

  /** Ingesting two pages in two transactions, with whatever flips the first one makes, leaves
      exactly what one transaction over both would. */
  lemma PagedIngestIsOneIngest(db: Db, a: seq<UsageRow>, b: seq<UsageRow>, price: UsageRow -> Option<int>)
    requires db.spend.Keys <= db.keys.Keys
    ensures IngestPage(IngestPage(db, a, price), b, price) == IngestPage(db, a + b, price)
  {
    var mid := IngestPage(db, a, price);
    var i1 := NewRows(IdsOf(db.log), db.keys, a, price);
    var i2 := NewRows(IdsOf(mid.log), mid.keys, b, price);
    IdsOfConcat(db.log, i1);
    NewRowsOfConcat(IdsOf(db.log), db.keys, mid.keys, a, b, price);
    assert NewRows(IdsOf(db.log), db.keys, a + b, price) == i1 + i2;
    assert ChargedKeys(mid.keys, i2) == ChargedKeys(db.keys, i2);
    SpendMapOfConcat(db, i1, i2);
    var two, one := IngestPage(mid, b, price), IngestPage(db, a + b, price);
    assert two.log == db.log + i1 + i2 == one.log;
    forall k | k in db.keys
      ensures two.keys[k] == one.keys[k]
    {
      FlipsOfConcat(db, i1, i2, k);
    }
    assert two.keys == one.keys;
  }

  // ---------------------------------------------------------------------------
  // The page loop
  // ---------------------------------------------------------------------------

  lemma BacklogIsSorted(table: seq<UsageRow>, after: string)
    requires DistinctIds(table)
    ensures Sorted(Backlog(table, after))
    ensures forall r :: r in Backlog(table, after) <==> r in table && LexLess(after, Print(r.usageId))
  {
    FilterKeepsDistinct(table, Newer(after));
    SortRowsSorts(Filter(table, Newer(after)));
  }

  lemma {:induction false} LexTransitive(a: string, b: string, c: string)
    requires LexLess(a, b) && LexLess(b, c)
    ensures LexLess(a, c)
    decreases |a|
  {
    if a != [] && b != [] && a[0] == b[0] == c[0] {
      LexTransitive(a[1..], b[1..], c[1..]);
    }
  }

  lemma RowsAfter(b: seq<UsageRow>, n: nat, r: UsageRow)
    requires Sorted(b) && 0 < n <= |b|
    ensures r in b[n..] <==> r in b && Before(b[n - 1], r)
  {
  }

  /** What is left after a page is what lies after its last id. */
  lemma BacklogAfterPage(table: seq<UsageRow>, after: string, n: nat)
    requires DistinctIds(table) && 0 < n <= |Backlog(table, after)|
    ensures var b := Backlog(table, after);
            Backlog(table, Print(b[n - 1].usageId)) == b[n..]
  {
    var b := Backlog(table, after);
    BacklogIsSorted(table, after);
    var last := b[n - 1].usageId;
    assert b[n - 1] in b;
    BacklogIsSorted(table, Print(last));
    var rest := Backlog(table, Print(last));
    forall r
      ensures r in rest <==> r in b[n..]
    {
      StringOrderIsIdOrder(last, r.usageId);
      RowsAfter(b, n, r);
      if r in rest {
        LexTransitive(after, Print(last), Print(r.usageId));
      }
    }
    SortedUnique(rest, b[n..]);
  }

  lemma SplitPage(done: seq<UsageRow>, b: seq<UsageRow>, n: nat)
    requires n <= |b|
    ensures done + b == done + b[..n] + b[n..]
  {
  }

  /** One turn of the page loop: what is stored is one ingest of all pages so far, and what is left
      lies after the page's last id. */
  lemma PageTurn(table: seq<UsageRow>, cursor: string, was: Db, done: seq<UsageRow>, rest: seq<UsageRow>,
                 page: seq<UsageRow>, price: UsageRow -> Option<int>)
    requires DistinctIds(table) && rest == Backlog(table, cursor) && page == Fetch(table, cursor) != []
    requires was.spend.Keys <= was.keys.Keys
    ensures |page| <= |rest| && Backlog(table, Print(page[|page| - 1].usageId)) == rest[|page|..]
    ensures done + rest == done + page + rest[|page|..]
    ensures |page| < PAGE_LIMIT ==> rest[|page|..] == []
    ensures IngestPage(IngestPage(was, done, price), page, price) == IngestPage(was, done + page, price)
  {
    BacklogAfterPage(table, cursor, |page|);
    SplitPage(done, rest, |page|);
    PagedIngestIsOneIngest(was, done, page, price);
  }

  class GatewayDb {
    var keys: map<KeyId, Key>
    var log: seq<LogRow>
    var spend: map<KeyId, Spend>

    ghost function State(): Db
      reads this
    {
      Db(keys, log, spend)
    }

    constructor ()
      ensures State() == EMPTY
    {
      keys, log, spend := map[], [], map[];
    }

    /** Adds the cost of the just-inserted rows to each row's key and root, then flips the charged
        keys that reached their budget. */
    method ChargeSpend(ins: seq<LogRow>)
      modifies this`keys, this`spend
      ensures spend == AddSpend(old(spend), ChargedKeys(old(keys), ins), ins)
      ensures keys == FlipKeys(old(keys), spend, ChargedKeys(old(keys), ins))
      ensures Charged(old(keys), old(spend), ins, keys, spend)
    {
      var charged := ChargedKeys(keys, ins);
      ChargedKeyByKey(keys, spend, ins);
      spend := AddSpend(spend, charged, ins);
      if charged == {} {
        assert FlipKeys(keys, spend, {}) == keys;
        return;
      }
      keys := FlipKeys(keys, spend, charged);
    }

    /** The transaction of one page: insert what is new, charge it. Returns how many rows. */
    method StorePage(rows: seq<UsageRow>, price: UsageRow -> Option<int>) returns (inserted: nat)
      modifies this
      ensures State() == IngestPage(old(State()), rows, price)
      ensures inserted == |log| - |old(log)|
      ensures Ingested(old(State()), (r: UsageRow) => r in rows, price, State())
    {
      IngestIsBooked(State(), rows, price, (r: UsageRow) => r in rows);
      var ins := NewRows(IdsOf(log), keys, rows, price);
      log := log + ins;
      if |ins| > 0 {
        ChargeSpend(ins);
      } else {
        NothingInserted(old(State()), rows, price);
      }
      inserted := |ins|;
    }

    /** Polls one machine: all pages after `after`. The outcome is that of one transaction over
        the machine's whole backlog. */
    method PollOnce(table: seq<UsageRow>, after: string, price: UsageRow -> Option<int>) returns (inserted: nat)
      requires DistinctIds(table) && spend.Keys <= keys.Keys
      modifies this
      ensures State() == IngestPage(old(State()), Backlog(table, after), price)
      ensures inserted == |log| - |old(log)|
      ensures Ingested(old(State()), (r: UsageRow) => r in table && LexLess(after, Print(r.usageId)), price, State())
    {
      BacklogIsSorted(table, after);
      IngestIsBooked(State(), Backlog(table, after), price,
                     (r: UsageRow) => r in table && LexLess(after, Print(r.usageId)));
      var cursor := after;
      inserted := 0;
      ghost var was, all := State(), Backlog(table, after);
      ghost var done: seq<UsageRow>, rest := [], all;
      NothingInserted(was, [], price);
      assert [] + all == all;
      while true
        invariant rest == Backlog(table, cursor) && all == done + rest
        invariant State() == IngestPage(was, done, price)
        invariant |was.log| <= |log| && inserted == |log| - |was.log|
        decreases |rest|
      {
        var page := Fetch(table, cursor);
        if |page| == 0 {
          break;
        }
        PageTurn(table, cursor, was, done, rest, page, price);
        var n := StorePage(page, price);
        inserted := inserted + n;
        done, rest := done + page, rest[|page|..];
        cursor := Print(page[|page| - 1].usageId);
        if |page| < PAGE_LIMIT {
          break;
        }
      }
      assert done + [] == done;
    }
  }

  /** After a poll every row of the machine's backlog whose key exists is stored. */
  lemma BacklogIsStored(db: Db, table: seq<UsageRow>, after: string, price: UsageRow -> Option<int>)
    requires DistinctIds(table)
    ensures var t := IngestPage(db, Backlog(table, after), price);
            forall r :: r in table && LexLess(after, Print(r.usageId)) && r.keyId in t.keys
              ==> r.usageId in IdsOf(t.log)
  {
    var b := Backlog(table, after);
    BacklogIsSorted(table, after);
    var ins := NewRows(IdsOf(db.log), db.keys, b, price);
    IdsOfConcat(db.log, ins);
    forall r | r in table && LexLess(after, Print(r.usageId)) && r.keyId in db.keys
      ensures r.usageId in IdsOf(db.log + ins)
    {
      NewRowsCover(IdsOf(db.log), db.keys, b, price, r);
    }
  }
}
