/** The price list: which row applies when, what ingest charges with it, what the admin page shows,
    and the poller's copy of the list in memory. */
module Prices {
  import opened Wrappers
  import opened Pricing

  /** A row of model_prices: every rate set, no tier. Rows are only ever added. */
  datatype PriceRow = PriceRow(id: string, model: string, validFrom: int, rates: FullRates)

  type Stored = multiset<PriceRow>

  type Table = map<string, seq<PriceRow>>

  type Catalog = map<string, Rates>

  /** A possible answer to the query: every row once, each model's newest first. Rows with the
      same valid_from may come in either order. */
  ghost predicate IsAnswer(stored: Stored, rows: seq<PriceRow>) {
    && multiset(rows) == stored
    && forall i, j :: 0 <= i < j < |rows| && rows[i].model == rows[j].model ==> rows[i].validFrom >= rows[j].validFrom
  }

  // ---------------------------------------------------------------------------
  // Loading and picking
  // ---------------------------------------------------------------------------

  function RowsOf(rows: seq<PriceRow>, model: string): seq<PriceRow> {
    if rows == [] then []
    else
      var last := rows[|rows| - 1];
      RowsOf(rows[..|rows| - 1], model) + if last.model == model then [last] else []
  }

  function ListOf(table: Table, model: string): seq<PriceRow> {
    if model in table then table[model] else []
  }

  ghost predicate IsTable(table: Table, rows: seq<PriceRow>) {
    forall model :: ListOf(table, model) == RowsOf(rows, model)
  }

  /** The grouping loop: each model's list holds its rows in the query's order. */
  method LoadPrices(rows: seq<PriceRow>) returns (table: Table)
    ensures IsTable(table, rows)
  {
    table := map[];
    for i := 0 to |rows|
      invariant IsTable(table, rows[..i])
    {
      var r := rows[i];
      ghost var before := table;
      assert rows[..i + 1][..i] == rows[..i];
      var list := if r.model in table then table[r.model] else [];
      table := table[r.model := list + [r]];
      forall model
        ensures ListOf(table, model) == RowsOf(rows[..i + 1], model)
      {
        assert ListOf(before, model) == RowsOf(rows[..i], model);
      }
    }
    assert rows[..|rows|] == rows;
  }

  /** The first row already valid. */
  function PickPrice(list: seq<PriceRow>, at: int): Option<PriceRow> {
    if list == [] then None
    else if list[0].validFrom <= at then Some(list[0])
    else PickPrice(list[1..], at)
  }

  predicate Applies(r: PriceRow, model: string, at: int) {
    r.model == model && r.validFrom <= at
  }

  lemma {:induction false} RowsOfFilters(rows: seq<PriceRow>, model: string, r: PriceRow)
    ensures r in RowsOf(rows, model) <==> r in rows && r.model == model
  {
    if rows != [] {
      var n := |rows| - 1;
      assert rows == rows[..n] + [rows[n]];
      RowsOfFilters(rows[..n], model, r);
    }
  }

  ghost predicate NewestFirst(list: seq<PriceRow>) {
    forall i, j :: 0 <= i < j < |list| ==> list[i].validFrom >= list[j].validFrom
  }

  lemma {:induction false} RowsOfKeepsOrder(rows: seq<PriceRow>, model: string)
    requires forall i, j :: 0 <= i < j < |rows| && rows[i].model == rows[j].model
               ==> rows[i].validFrom >= rows[j].validFrom
    ensures NewestFirst(RowsOf(rows, model))
  {
    if rows != [] {
      var n := |rows| - 1;
      RowsOfKeepsOrder(rows[..n], model);
      forall r | r in RowsOf(rows[..n], model)
        ensures rows[n].model == model ==> r.validFrom >= rows[n].validFrom
      {
        RowsOfFilters(rows[..n], model, r);
      }
    }
  }

  lemma {:induction false} PickIsNewest(list: seq<PriceRow>, at: int)
    requires NewestFirst(list)
    ensures match PickPrice(list, at)
            case None => forall r :: r in list ==> r.validFrom > at
            case Some(p) =>
              && p in list && p.validFrom <= at
              && forall r :: r in list && r.validFrom <= at ==> r.validFrom <= p.validFrom
  {
    if list != [] {
      assert list == [list[0]] + list[1..];
      if list[0].validFrom > at {
        PickIsNewest(list[1..], at);
      }
    }
  }

  /** The resolved row is one with the greatest valid_from not after the request, out of the whole
      stored list; there is none exactly when no row applies. */
  lemma PickIsLatest(stored: Stored, rows: seq<PriceRow>, model: string, at: int)
    requires IsAnswer(stored, rows)
    ensures match PickPrice(RowsOf(rows, model), at)
            case None => forall r :: r in stored ==> !Applies(r, model, at)
            case Some(p) =>
              && p in stored && Applies(p, model, at)
              && forall r :: r in stored && Applies(r, model, at) ==> r.validFrom <= p.validFrom
  {
    RowsOfKeepsOrder(rows, model);
    PickIsNewest(RowsOf(rows, model), at);
    forall r | r in stored
      ensures r in rows && (r.model == model ==> r in RowsOf(rows, model))
    {
      assert r in multiset(rows);
      RowsOfFilters(rows, model, r);
    }
    if PickPrice(RowsOf(rows, model), at).Some? {
      RowsOfFilters(rows, model, PickPrice(RowsOf(rows, model), at).value);
      assert PickPrice(RowsOf(rows, model), at).value in multiset(rows);
    }
  }

  /** An applying row with the greatest valid_from. */
  ghost predicate Latest(stored: Stored, model: string, at: int, r: PriceRow) {
    && r in stored && Applies(r, model, at)
    && forall s :: s in stored && Applies(s, model, at) ==> s.validFrom <= r.validFrom
  }

  /** The latest applying rows are one row; ties further back do not matter. */
  ghost predicate Determined(stored: Stored, model: string, at: int) {
    forall r, s :: Latest(stored, model, at, r) && Latest(stored, model, at, s) ==> r == s
  }

  /** Only the rows that apply decide: rows of other models, or valid later, change nothing, and
      nor does the query's order. */
  lemma OnlyApplyingRowsMatter(stored: Stored, rows: seq<PriceRow>, stored2: Stored, rows2: seq<PriceRow>,
                               model: string, at: int)
    requires IsAnswer(stored, rows) && IsAnswer(stored2, rows2) && Determined(stored, model, at)
    requires forall r :: Applies(r, model, at) ==> (r in stored <==> r in stored2)
    ensures PickPrice(RowsOf(rows, model), at) == PickPrice(RowsOf(rows2, model), at)
  {
    PickIsLatest(stored, rows, model, at);
    PickIsLatest(stored2, rows2, model, at);
    var p, q := PickPrice(RowsOf(rows, model), at), PickPrice(RowsOf(rows2, model), at);
    assert p.Some? ==> Latest(stored, model, at, p.value);
    assert q.Some? ==> Latest(stored, model, at, q.value);
  }

  lemma {:induction false} PickOfSnoc(list: seq<PriceRow>, x: PriceRow, at: int)
    ensures PickPrice(list + [x], at) ==
              if PickPrice(list, at).Some? then PickPrice(list, at) else if x.validFrom <= at then Some(x) else None
  {
    if list != [] {
      assert (list + [x])[1..] == list[1..] + [x];
      PickOfSnoc(list[1..], x, at);
    }
  }

  /** The first applying row of an answer is the one picked. */
  lemma {:induction false} FirstIsPicked(rows: seq<PriceRow>, model: string, at: int, i: nat)
    requires i <= |rows| && forall j :: 0 <= j < i ==> !Applies(rows[j], model, at)
    requires i < |rows| ==> Applies(rows[i], model, at)
    ensures PickPrice(RowsOf(rows, model), at) == if i < |rows| then Some(rows[i]) else None
  {
    if rows != [] {
      var n := |rows| - 1;
      FirstIsPicked(rows[..n], model, at, Min(i, n));
      PickOfSnoc(RowsOf(rows[..n], model), rows[n], at);
      assert RowsOf(rows[..n], model) + [] == RowsOf(rows[..n], model);
    }
  }

  /** The row goes before the first one that is no newer. */
  function InsertNewest(r: PriceRow, s: seq<PriceRow>): seq<PriceRow> {
    if s == [] || s[0].validFrom <= r.validFrom then [r] + s else [s[0]] + InsertNewest(r, s[1..])
  }

  lemma {:induction false} InsertNewestAdds(r: PriceRow, s: seq<PriceRow>)
    ensures multiset(InsertNewest(r, s)) == multiset(s) + multiset{r}
  {
    if s != [] {
      assert s == [s[0]] + s[1..];
      InsertNewestAdds(r, s[1..]);
    }
  }

  lemma NewestOfCons(r: PriceRow, rest: seq<PriceRow>)
    requires NewestFirst(rest) && forall q :: q in rest ==> r.validFrom >= q.validFrom
    ensures NewestFirst([r] + rest)
  {
  }

  lemma {:induction false} InsertNewestSorts(r: PriceRow, s: seq<PriceRow>)
    requires NewestFirst(s)
    ensures NewestFirst(InsertNewest(r, s))
  {
    if s != [] && s[0].validFrom > r.validFrom {
      InsertNewestSorts(r, s[1..]);
      forall q | q in InsertNewest(r, s[1..])
        ensures s[0].validFrom >= q.validFrom
      {
        InsertNewestAdds(r, s[1..]);
        assert q in multiset(s[1..]) + multiset{r};
      }
      NewestOfCons(s[0], InsertNewest(r, s[1..]));
    }
  }

  lemma {:induction false} InsertNewestAt(r: PriceRow, s: seq<PriceRow>) returns (i: nat)
    ensures var t := InsertNewest(r, s);
            i < |t| && t[i] == r && forall j :: 0 <= j < i ==> t[j] in s && t[j].validFrom > r.validFrom
  {
    i := 0;
    if s != [] && s[0].validFrom > r.validFrom {
      var k := InsertNewestAt(r, s[1..]);
      i := k + 1;
      assert s == [s[0]] + s[1..];
    }
  }

  lemma {:induction false} SomeAnswer(stored: Stored) returns (rows: seq<PriceRow>)
    ensures multiset(rows) == stored && NewestFirst(rows)
    decreases |stored|
  {
    rows := [];
    if stored != multiset{} {
      var r :| r in stored;
      var rest := SomeAnswer(stored - multiset{r});
      InsertNewestAdds(r, rest);
      InsertNewestSorts(r, rest);
      rows := InsertNewest(r, rest);
    }
  }

  /** Each latest applying row is the one some answer of the query picks. */
  lemma LatestCanBePicked(stored: Stored, model: string, at: int, r: PriceRow) returns (rows: seq<PriceRow>)
    requires Latest(stored, model, at, r)
    ensures IsAnswer(stored, rows) && PickPrice(RowsOf(rows, model), at) == Some(r)
  {
    var rest := SomeAnswer(stored - multiset{r});
    var i := InsertNewestAt(r, rest);
    InsertNewestAdds(r, rest);
    InsertNewestSorts(r, rest);
    rows := InsertNewest(r, rest);
    forall j | 0 <= j < i
      ensures !Applies(rows[j], model, at)
    {
      assert rows[j] in multiset(rest);
    }
    FirstIsPicked(rows, model, at, i);
  }

  /** With a tie for the latest, either row can be the picked one. */
  lemma TiesAreAmbiguous(stored: Stored, model: string, at: int, r: PriceRow, s: PriceRow)
    returns (rows: seq<PriceRow>, rows2: seq<PriceRow>)
    requires Latest(stored, model, at, r) && Latest(stored, model, at, s)
    ensures IsAnswer(stored, rows) && PickPrice(RowsOf(rows, model), at) == Some(r)
    ensures IsAnswer(stored, rows2) && PickPrice(RowsOf(rows2, model), at) == Some(s)
  {
    rows := LatestCanBePicked(stored, model, at, r);
    rows2 := LatestCanBePicked(stored, model, at, s);
  }

  ghost predicate SamePick(rows: seq<PriceRow>, rows2: seq<PriceRow>, model: string, at: int) {
    PickPrice(RowsOf(rows, model), at) == PickPrice(RowsOf(rows2, model), at)
  }

  /** Every answer of the query picks the same row if and only if the latest applying rows are one
      row: with a tie for the latest, the query's order decides the price. */
  lemma PriceIsDetermined(stored: Stored, model: string, at: int)
    ensures Determined(stored, model, at) <==>
              forall rows, rows2 :: IsAnswer(stored, rows) && IsAnswer(stored, rows2)
                ==> SamePick(rows, rows2, model, at)
  {
    if Determined(stored, model, at) {
      forall rows, rows2 | IsAnswer(stored, rows) && IsAnswer(stored, rows2)
        ensures SamePick(rows, rows2, model, at)
      {
        OnlyApplyingRowsMatter(stored, rows, stored, rows2, model, at);
      }
    } else {
      var r, s :| Latest(stored, model, at, r) && Latest(stored, model, at, s) && r != s;
      var rows, rows2 := TiesAreAmbiguous(stored, model, at, r, s);
      assert !SamePick(rows, rows2, model, at);
    }
  }

  // ---------------------------------------------------------------------------
  // What ingest charges and what the admin page shows
  // ---------------------------------------------------------------------------

  function RatesOfRow(r: PriceRow): Rates {
    Rates(r.rates.input, r.rates.output, Some(r.rates.cacheRead), Some(r.rates.cacheWrite), Some(r.rates.perRequest),
          None)
  }

  datatype Priced = Priced(cost: Option<real>, priceId: Option<string>)

  /** A row's cost, or the catalog's, or none. */
  function PriceUsage(list: seq<PriceRow>, catalog: Catalog, model: string, at: int, u: Usage): Priced {
    match PickPrice(list, at)
    case Some(row) => Priced(Some(ApiCost(RatesOfRow(row), u)), Some(row.id))
    case None => Priced(if model in catalog then Some(ApiCost(catalog[model], u)) else None, None)
  }

  lemma RatesOfRowCost(r: PriceRow, u: Usage)
    ensures ApiCost(RatesOfRow(r), u) == CostAt(r.rates, u)
  {
  }

  /** A usage row is charged by a stored row that applies and is the latest, which its price id
      names; by the catalog, with no price id, when no row applies; and not at all when the catalog
      does not list the model either. */
  lemma PricedByTheLatestRow(stored: Stored, rows: seq<PriceRow>, catalog: Catalog, model: string, at: int, u: Usage)
    requires IsAnswer(stored, rows)
    ensures match PriceUsage(RowsOf(rows, model), catalog, model, at, u)
            case Priced(cost, Some(id)) =>
              exists p :: p in stored && p.id == id && Applies(p, model, at) && cost == Some(CostAt(p.rates, u))
                          && forall r :: r in stored && Applies(r, model, at) ==> r.validFrom <= p.validFrom
            case Priced(cost, None) =>
              && (forall r :: r in stored ==> !Applies(r, model, at))
              && cost == if model in catalog then Some(Cost(catalog[model], u)) else None
  {
    PickIsLatest(stored, rows, model, at);
    var pick := PickPrice(RowsOf(rows, model), at);
    if pick.Some? {
      RatesOfRowCost(pick.value, u);
    }
  }

  /** The rates shown for a catalog model at an instant. */
  function EffectivePrice(list: seq<PriceRow>, entry: Rates, at: int): FullRates {
    match PickPrice(list, at)
    case Some(row) => row.rates
    case None =>
      FullRates(entry.input, entry.output, entry.cacheRead.GetOr(entry.input * 0.1),
                entry.cacheWrite.GetOr(entry.input * 1.25), entry.perRequest.GetOr(0.0))
  }

  predicate IsUsage(u: Usage) {
    0.0 <= u.input && 0.0 <= u.output && 0.0 <= u.cacheRead && 0.0 <= u.cacheWrite
  }

  ghost predicate ChargesWhatItShows(list: seq<PriceRow>, catalog: Catalog, model: string, at: int)
    requires model in catalog
  {
    forall u :: IsUsage(u) ==>
      PriceUsage(list, catalog, model, at, u).cost == Some(CostAt(EffectivePrice(list, catalog[model], at), u))
  }

  ghost predicate NoTierEffect(m: Rates, t: Tier) {
    m.longContext == Some(t) && forall u :: IsUsage(u) ==> Cost(m, u) == CostAt(BaseRates(m), u)
  }

  lemma SameCost(m: Rates, t: Tier, u: Usage)
    requires NoTierEffect(m, t) && IsUsage(u) && u.Prompt() > t.above
    ensures CostAt(TierRates(m, t), u) == CostAt(BaseRates(m), u)
  {
  }

  lemma BucketRate(c: real, p: real, r: real, s: real)
    requires p > 0.0 && c + p * r / PER == c + p * s / PER
    ensures r == s
  {
  }

  lemma SameInput(m: Rates, t: Tier, p: real)
    requires NoTierEffect(m, t) && p > t.above && p > 0.0
    ensures TierRates(m, t).input == BaseRates(m).input
  {
    var u := Usage(p, 0.0, 0.0, 0.0);
    SameCost(m, t, u);
    assert CostAt(TierRates(m, t), u) == m.perRequest.GetOr(0.0) + p * t.input / PER;
    assert CostAt(BaseRates(m), u) == m.perRequest.GetOr(0.0) + p * BaseRates(m).input / PER;
    BucketRate(m.perRequest.GetOr(0.0), p, t.input, BaseRates(m).input);
  }

  lemma SameRead(m: Rates, t: Tier, p: real)
    requires NoTierEffect(m, t) && p > t.above && p > 0.0
    ensures TierRates(m, t).cacheRead == BaseRates(m).cacheRead
  {
    var u := Usage(0.0, 0.0, p, 0.0);
    SameCost(m, t, u);
    assert CostAt(TierRates(m, t), u) == m.perRequest.GetOr(0.0) + p * t.cacheRead / PER;
    assert CostAt(BaseRates(m), u) == m.perRequest.GetOr(0.0) + p * BaseRates(m).cacheRead / PER;
    BucketRate(m.perRequest.GetOr(0.0), p, t.cacheRead, BaseRates(m).cacheRead);
  }

  lemma SameWrite(m: Rates, t: Tier, p: real)
    requires NoTierEffect(m, t) && p > t.above && p > 0.0
    ensures TierRates(m, t).cacheWrite == BaseRates(m).cacheWrite
  {
    var u := Usage(0.0, 0.0, 0.0, p);
    SameCost(m, t, u);
    assert CostAt(TierRates(m, t), u) == m.perRequest.GetOr(0.0) + p * t.cacheWrite / PER;
    assert CostAt(BaseRates(m), u) == m.perRequest.GetOr(0.0) + p * BaseRates(m).cacheWrite / PER;
    BucketRate(m.perRequest.GetOr(0.0), p, t.cacheWrite, BaseRates(m).cacheWrite);
  }

  lemma SameOutput(m: Rates, t: Tier, p: real)
    requires NoTierEffect(m, t) && p > t.above && p > 0.0 && t.input == m.input
    ensures TierRates(m, t).output == BaseRates(m).output
  {
    var u := Usage(p, 1.0, 0.0, 0.0);
    SameCost(m, t, u);
    assert CostAt(TierRates(m, t), u) == m.perRequest.GetOr(0.0) + (p * t.input + t.output) / PER;
    assert CostAt(BaseRates(m), u) == m.perRequest.GetOr(0.0) + (p * m.input + m.output) / PER;
  }

  /** Requests past the threshold, one per bucket, tell any two rate tables apart. */
  lemma CostsTellRates(m: Rates, t: Tier)
    requires NoTierEffect(m, t)
    ensures TierRates(m, t) == BaseRates(m)
  {
    var p := if t.above > 0.0 then t.above + 1.0 else 1.0;
    SameInput(m, t, p);
    SameRead(m, t, p);
    SameWrite(m, t, p);
    SameOutput(m, t, p);
  }

  /** Ingest charges every request at the rates shown exactly when a row applies, the model has no
      long-context tier, or the tier changes nothing. */
  lemma ShownPriceIsCharged(list: seq<PriceRow>, catalog: Catalog, model: string, at: int)
    requires model in catalog
    ensures ChargesWhatItShows(list, catalog, model, at) <==>
              var m := catalog[model];
              PickPrice(list, at).Some? || m.longContext.None? || TierRates(m, m.longContext.value) == BaseRates(m)
  {
    var m, row := catalog[model], PickPrice(list, at);
    if row.Some? {
      forall u | IsUsage(u)
        ensures PriceUsage(list, catalog, model, at, u).cost == Some(CostAt(EffectivePrice(list, m, at), u))
      {
        RatesOfRowCost(row.value, u);
      }
    } else if m.longContext.Some? && ChargesWhatItShows(list, catalog, model, at) {
      forall u | IsUsage(u)
        ensures Cost(m, u) == CostAt(BaseRates(m), u)
      {
        assert PriceUsage(list, catalog, model, at, u).cost == Some(CostAt(EffectivePrice(list, m, at), u));
      }
      assert NoTierEffect(m, m.longContext.value);
      CostsTellRates(m, m.longContext.value);
    }
  }

  // ---------------------------------------------------------------------------
  // The list in memory
  // ---------------------------------------------------------------------------

  const TTL := 30000

  type History = imap<int, Stored>

  ghost predicate AppendOnly(history: History) {
    forall s, t :: s in history && t in history && s <= t ==> history[s] <= history[t]
  }

  ghost predicate LoadedAt(history: History, table: Table, read: int, rows: seq<PriceRow>) {
    read in history && IsAnswer(history[read], rows) && IsTable(table, rows)
  }

  /** The table is the stored list of some instant of [from, to]. */
  ghost predicate AsOf(history: History, table: Table, from: int, to: int) {
    exists read, rows :: from <= read <= to && LoadedAt(history, table, read, rows)
  }

  datatype Cached = Cached(table: Table, loadedAt: int)

  class PriceCache {
    ghost const history: History
    var cache: Option<Cached>
    /** When the load of the cached table began. */
    ghost var started: int

    ghost predicate Valid()
      reads this
    {
      cache.Some? ==> AsOf(history, cache.value.table, started, cache.value.loadedAt)
    }

    constructor (ghost history: History)
      ensures Valid() && cache == None && this.history == history
    {
      this.history := history;
      cache := None;
    }

    /** What other calls do while this one awaits the database. */
    method Others()
      requires Valid()
      modifies this
      ensures Valid()
    {
    }

    /** `begun`: when the load begins; `rows`: its answer, read at `read`. */
    method ReloadPriceTable(ghost begun: int, ghost read: int, rows: seq<PriceRow>, loadedAt: int)
      returns (table: Table)
      requires Valid() && begun <= read <= loadedAt && read in history && IsAnswer(history[read], rows)
      modifies this
      ensures Valid() && IsTable(table, rows) && cache == Some(Cached(table, loadedAt)) && started == begun
      ensures AsOf(history, table, begun, loadedAt)
    {
      Others();
      table := LoadPrices(rows);
      cache, started := Some(Cached(table, loadedAt)), begun;
      assert LoadedAt(history, table, read, rows);
    }

    /** Either the cached table, whose own load ended at most the TTL ago, or one loaded now. */
    method PriceTable(now: int, ghost read: int, rows: seq<PriceRow>, loadedAt: int) returns (table: Table)
      requires Valid() && now <= read <= loadedAt && read in history && IsAnswer(history[read], rows)
      modifies this
      ensures Valid()
      ensures if old(cache).Some? && now - old(cache).value.loadedAt <= 30000
              then cache == old(cache) && table == old(cache).value.table
                   && AsOf(history, table, old(started), old(cache).value.loadedAt)
              else AsOf(history, table, now, loadedAt) && cache == Some(Cached(table, loadedAt))
    {
      if cache.None? || now - cache.value.loadedAt > TTL {
        table := ReloadPriceTable(now, read, rows, loadedAt);
        return;
      }
      table := cache.value.table;
    }
  }

  /** Pricing from memory is pricing from the stored list, unless a row that applies was added
      since the oldest instant the table may be from. */
  lemma CachedPriceIsCurrent(history: History, table: Table, from: int, to: int, now: int, rows: seq<PriceRow>,
                             catalog: Catalog, model: string, at: int, u: Usage)
    requires AppendOnly(history) && AsOf(history, table, from, to) && to <= now
    requires from in history && now in history && IsAnswer(history[now], rows) && Determined(history[now], model, at)
    requires forall r :: r in history[now] && Applies(r, model, at) ==> r in history[from]
    ensures PriceUsage(ListOf(table, model), catalog, model, at, u)
         == PriceUsage(RowsOf(rows, model), catalog, model, at, u)
  {
    var read, rows0 :| from <= read <= to && LoadedAt(history, table, read, rows0);
    assert history[from] <= history[read] <= history[now];
    OnlyApplyingRowsMatter(history[now], rows, history[read], rows0, model, at);
  }
}
