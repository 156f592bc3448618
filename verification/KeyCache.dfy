/** The proxy's cache of key rows: two maps, entries that live for a TTL, deny entries, a size cap.
    Requests share it; each critical section is one step, and others run between them. */
module KeyCache {
  import opened Wrappers
  import opened Rows
  import opened Gateway

  const CAP := 10000

  /** What the proxy reads of a key row. */
  datatype KeyMeta = KeyMeta(id: KeyId, name: string, models: seq<string>, status: Status, keyType: KeyType,
                             parent: Option<KeyId>, root: Option<KeyId>, expiresAt: Option<int>)

  function MetaOf(id: KeyId, k: Key): KeyMeta {
    KeyMeta(id, k.name, k.models, k.status, k.keyType, k.parent, k.root, k.expiresAt)
  }

  /** The key table at each instant. */
  type History = imap<int, map<KeyId, Key>>

  datatype Index = ByHash | ById

  predicate Matches(index: Index, wanted: string, id: KeyId, k: Key) {
    match index
    case ByHash => k.keyHash == Some(wanted)
    case ById => id == wanted
  }

  /** A possible answer to `SELECT ... WHERE <index> = wanted LIMIT 1` on a key table. */
  ghost predicate IsRow(keys: map<KeyId, Key>, index: Index, wanted: string, row: Option<KeyMeta>) {
    match row
    case None => forall id :: id in keys ==> !Matches(index, wanted, id, keys[id])
    case Some(m) => m.id in keys && Matches(index, wanted, m.id, keys[m.id]) && m == MetaOf(m.id, keys[m.id])
  }

  predicate Unexpired(k: KeyMeta, now: int) {
    k.expiresAt.None? || k.expiresAt.value > now
  }

  /** The row admits requests at `now`: it exists, is not revoked, and has not expired. */
  predicate Live(row: Option<KeyMeta>, now: int) {
    row.Some? && row.value.status != Revoked && Unexpired(row.value, now)
  }

  /** `toCached`: the row, or deny. */
  function ToCached(row: Option<KeyMeta>, now: int): Option<KeyMeta> {
    if row.None? || (row.value.status != Active && row.value.status != OverBudget) then None
    else if !Unexpired(row.value, now) then None
    else row
  }

  /** `usable`: a cached row that is not deny and has not expired since. */
  predicate Usable(k: Option<KeyMeta>, now: int) {
    k.Some? && Unexpired(k.value, now)
  }

  /** Filtering once when the row is stored and again when it is used decides what filtering the
      row at its use would. */
  lemma CachedIsLive(row: Option<KeyMeta>, stored: int, now: int)
    requires stored <= now
    ensures Usable(ToCached(row, stored), now) <==> Live(row, now)
    ensures Live(row, now) ==> ToCached(row, stored) == row
  {
  }

  datatype Entry = Entry(meta: Option<KeyMeta>, exp: int)

  datatype DbError = DbError

  /** One lookup as the outside sees it: when it looks at the map, when the database answers if it
      is asked, when the answer is filtered, when it is stored. */
  datatype Visit = Visit(now: int, read: int, checked: int, stored: int, answer: Result<Option<KeyMeta>, DbError>) {
    predicate Ordered() {
      now <= read <= checked <= stored
    }

    /** What asking the database gives. */
    function Fetched(): Result<Option<KeyMeta>, DbError> {
      match answer
      case Ok(row) => Ok(ToCached(row, checked))
      case Err(e) => Err(e)
    }

    ghost predicate Answers(history: History, index: Index, wanted: string) {
      Ordered() && (answer.Ok? ==> read in history && IsRow(history[read], index, wanted, answer.value))
    }
  }

  /** `meta` is a row read at some instant of [from, to], filtered by `to`. */
  ghost predicate Backed(history: History, index: Index, wanted: string, meta: Option<KeyMeta>,
                         from: int, to: int)
  {
    exists read, row, checked :: Reading(history, index, wanted, meta, from, to, read, row, checked)
  }

  ghost predicate Reading(history: History, index: Index, wanted: string, meta: Option<KeyMeta>,
                          from: int, to: int, read: int, row: Option<KeyMeta>, checked: int)
  {
    && from <= read <= checked <= to && read in history && IsRow(history[read], index, wanted, row)
    && meta == ToCached(row, checked)
  }

  /** One fill of an entry: what it stored, from the lookup's start to the store. */
  datatype FillRecord = FillRecord(index: Index, wanted: string, meta: Option<KeyMeta>, started: int, stored: int)

  /** Every fill stored what it read while it lasted. */
  ghost predicate FillsOk(history: History, fills: set<FillRecord>, clock: int) {
    forall f {:trigger Backed(history, f.index, f.wanted, f.meta, f.started, f.stored)} ::
      f in fills ==> f.stored <= clock && Backed(history, f.index, f.wanted, f.meta, f.started, f.stored)
  }

  ghost predicate StoredBy(f: FillRecord, index: Index, wanted: string, meta: Option<KeyMeta>, after: int, until: int) {
    f.index == index && f.wanted == wanted && f.meta == meta && after < f.stored <= until
  }

  /** `meta` is what a fill of this entry stored within (after, until]. */
  ghost predicate Answered(fills: set<FillRecord>, index: Index, wanted: string, meta: Option<KeyMeta>,
                           after: int, until: int)
  {
    exists f :: f in fills && StoredBy(f, index, wanted, meta, after, until)
  }

  lemma AnsweredWidens(fills: set<FillRecord>, index: Index, wanted: string, meta: Option<KeyMeta>,
                       after: int, until: int, fills2: set<FillRecord>, after2: int, until2: int)
    requires Answered(fills, index, wanted, meta, after, until)
    requires fills <= fills2 && after2 <= after && until <= until2
    ensures Answered(fills2, index, wanted, meta, after2, until2)
  {
    var f :| f in fills && StoredBy(f, index, wanted, meta, after, until);
    assert StoredBy(f, index, wanted, meta, after2, until2);
  }

  /** The fill behind an answer, and what it read. */
  lemma AnsweringFill(history: History, fills: set<FillRecord>, clock: int, index: Index, wanted: string,
                      meta: Option<KeyMeta>, after: int, until: int) returns (f: FillRecord)
    requires FillsOk(history, fills, clock) && Answered(fills, index, wanted, meta, after, until)
    ensures f in fills && StoredBy(f, index, wanted, meta, after, until) && f.stored <= clock
    ensures Backed(history, index, wanted, meta, f.started, f.stored)
  {
    f :| f in fills && StoredBy(f, index, wanted, meta, after, until);
    assert Backed(history, f.index, f.wanted, f.meta, f.started, f.stored);
  }

  lemma FillIsBacked(history: History, index: Index, wanted: string, v: Visit)
    requires v.Answers(history, index, wanted) && v.answer.Ok?
    ensures Backed(history, index, wanted, ToCached(v.answer.value, v.checked), v.now, v.stored)
  {
    assert Reading(history, index, wanted, ToCached(v.answer.value, v.checked), v.now, v.stored, v.read,
                   v.answer.value, v.checked);
  }

  // ---------------------------------------------------------------------------
  // What every entry of a map keeps
  // ---------------------------------------------------------------------------

  /** An entry is what one of the fills so far stored, and that fill set its expiry. */
  ghost predicate EntryOk(ttl: nat, fills: set<FillRecord>, index: Index, wanted: string, e: Entry) {
    Answered(fills, index, wanted, e.meta, e.exp - ttl - 1, e.exp - ttl)
  }

  ghost predicate EntriesOk(ttl: nat, fills: set<FillRecord>, index: Index, m: map<string, Entry>) {
    |m| <= CAP + 1
    && forall k {:trigger EntryOk(ttl, fills, index, k, m[k])} :: k in m ==> EntryOk(ttl, fills, index, k, m[k])
  }

  lemma EntriesAge(ttl: nat, fills: set<FillRecord>, fills2: set<FillRecord>, index: Index, m: map<string, Entry>)
    requires EntriesOk(ttl, fills, index, m) && fills <= fills2
    ensures EntriesOk(ttl, fills2, index, m)
  {
    forall k | k in m
      ensures EntryOk(ttl, fills2, index, k, m[k])
    {
      var stored := m[k].exp - ttl;
      assert EntryOk(ttl, fills, index, k, m[k]);
      AnsweredWidens(fills, index, k, m[k].meta, stored - 1, stored, fills2, stored - 1, stored);
    }
  }

  /** A full map is cleared before the new entry goes in. */
  function WithEntry(m: map<string, Entry>, wanted: string, e: Entry): map<string, Entry> {
    (if |m| > CAP then map[] else m)[wanted := e]
  }

  lemma AddedEntryOk(ttl: nat, fills: set<FillRecord>, f: FillRecord, m: map<string, Entry>)
    requires EntriesOk(ttl, fills, f.index, m)
    ensures EntriesOk(ttl, fills + {f}, f.index, WithEntry(m, f.wanted, Entry(f.meta, f.stored + ttl)))
  {
    EntriesAge(ttl, fills, fills + {f}, f.index, m);
    assert StoredBy(f, f.index, f.wanted, f.meta, f.stored - 1, f.stored);
    var e := Entry(f.meta, f.stored + ttl);
    var added := WithEntry(m, f.wanted, e);
    forall k | k in added
      ensures EntryOk(ttl, fills + {f}, f.index, k, added[k])
    {
      assert k != f.wanted ==> k in m && EntryOk(ttl, fills + {f}, f.index, k, m[k]);
    }
  }

  lemma AddedFillOk(history: History, fills: set<FillRecord>, clock: int, f: FillRecord)
    requires FillsOk(history, fills, clock) && clock <= f.stored
    requires Backed(history, f.index, f.wanted, f.meta, f.started, f.stored)
    ensures FillsOk(history, fills + {f}, f.stored)
  {
    forall g | g in fills + {f}
      ensures g.stored <= f.stored && Backed(history, g.index, g.wanted, g.meta, g.started, g.stored)
    {
      assert g == f || Backed(history, g.index, g.wanted, g.meta, g.started, g.stored);
    }
  }

  ghost predicate CacheOk(history: History, ttl: nat, fills: set<FillRecord>, clock: int, byHash: map<string, Entry>,
                          byId: map<string, Entry>)
  {
    && ttl > 0 && FillsOk(history, fills, clock)
    && EntriesOk(ttl, fills, ByHash, byHash) && EntriesOk(ttl, fills, ById, byId)
  }

  /** A map after a fill: only the filled index changes. */
  function AfterFill(m: map<string, Entry>, mine: bool, wanted: string, e: Entry): map<string, Entry> {
    if mine then WithEntry(m, wanted, e) else m
  }

  lemma FillKeepsCache(history: History, ttl: nat, fills: set<FillRecord>, clock: int, byHash: map<string, Entry>,
                       byId: map<string, Entry>, f: FillRecord)
    requires CacheOk(history, ttl, fills, clock, byHash, byId) && clock <= f.stored
    requires Backed(history, f.index, f.wanted, f.meta, f.started, f.stored)
    ensures var e := Entry(f.meta, f.stored + ttl);
            CacheOk(history, ttl, fills + {f}, f.stored, AfterFill(byHash, f.index == ByHash, f.wanted, e),
                    AfterFill(byId, f.index == ById, f.wanted, e))
  {
    EntriesAge(ttl, fills, fills + {f}, ByHash, byHash);
    EntriesAge(ttl, fills, fills + {f}, ById, byId);
    AddedFillOk(history, fills, clock, f);
    AddedEntryOk(ttl, fills, f, if f.index == ByHash then byHash else byId);
  }

  // ---------------------------------------------------------------------------
  // The cache
  // ---------------------------------------------------------------------------

  class Cache {
    const ttl: nat
    ghost const history: History
    var byHash: map<string, Entry>
    var byId: map<string, Entry>
    /** Every fill so far. */
    ghost var fills: set<FillRecord>
    /** The last reading of the clock under the lock. */
    ghost var clock: int

    function Entries(index: Index): map<string, Entry>
      reads this
    {
      match index
      case ByHash => byHash
      case ById => byId
    }

    ghost predicate Valid()
      reads this
    {
      CacheOk(history, ttl, fills, clock, byHash, byId)
    }

    constructor (ttl: nat, ghost history: History, ghost now: int)
      requires ttl > 0
      ensures Valid() && Entries(ByHash) == map[] && Entries(ById) == map[]
      ensures this.ttl == ttl && this.history == history && clock == now && fills == {}
    {
      this.ttl, this.history := ttl, history;
      byHash, byId := map[], map[];
      fills, clock := {}, now;
    }

    /** The first critical section and the expiry check: an unexpired entry answers. */
    method Peek(index: Index, wanted: string, now: int) returns (hit: Option<Option<KeyMeta>>)
      requires Valid() && clock <= now
      ensures hit.Some? <==> wanted in Entries(index) && now < Entries(index)[wanted].exp
      ensures hit.Some? ==> hit.value == Entries(index)[wanted].meta
      ensures hit.Some? ==> Answered(fills, index, wanted, hit.value, now - ttl, now)
    {
      var m := Entries(index);
      if wanted in m && now < m[wanted].exp {
        ghost var stored := m[wanted].exp - ttl;
        assert EntryOk(ttl, fills, index, wanted, m[wanted]);
        ghost var f := AnsweringFill(history, fills, clock, index, wanted, m[wanted].meta, stored - 1, stored);
        AnsweredWidens(fills, index, wanted, m[wanted].meta, stored - 1, stored, fills, now - ttl, now);
        hit := Some(m[wanted].meta);
      } else {
        hit := None;
      }
    }

    /** The second critical section: at most CAP + 1 entries are ever held. */
    method Fill(index: Index, wanted: string, meta: Option<KeyMeta>, stored: int, ghost started: int)
      requires Valid() && clock <= stored && Backed(history, index, wanted, meta, started, stored)
      modifies this
      ensures Valid() && clock == stored && fills == old(fills) + {FillRecord(index, wanted, meta, started, stored)}
      ensures byHash == AfterFill(old(byHash), index == ByHash, wanted, Entry(meta, stored + ttl))
      ensures byId == AfterFill(old(byId), index == ById, wanted, Entry(meta, stored + ttl))
    {
      FillKeepsCache(history, ttl, fills, clock, byHash, byId, FillRecord(index, wanted, meta, started, stored));
      var e := Entry(meta, stored + ttl);
      match index {
        case ByHash => byHash := WithEntry(byHash, wanted, e);
        case ById => byId := WithEntry(byId, wanted, e);
      }
      clock, fills := stored, fills + {FillRecord(index, wanted, meta, started, stored)};
    }

    /** Whatever other requests do while this one holds no lock: their own critical sections, each
        of which keeps `Valid`. */
    method Others(ghost until: int)
      requires Valid() && clock <= until
      modifies this
      ensures Valid() && old(clock) <= clock <= until && old(fills) <= fills
    {
    }

    /** The miss path of a lookup. */
    method Ask(index: Index, wanted: string, v: Visit) returns (r: Result<Option<KeyMeta>, DbError>)
      requires Valid() && clock <= v.now && v.Answers(history, index, wanted)
      modifies this
      ensures Valid() && clock <= v.stored && old(fills) <= fills && r == v.Fetched()
      ensures r.Ok? ==> FillRecord(index, wanted, r.value, v.now, v.stored) in fills
    {
      Others(v.stored);
      r := v.Fetched();
      if r.Ok? {
        FillIsBacked(history, index, wanted, v);
        Fill(index, wanted, r.value, v.stored, v.now);
      }
    }

    /** A lookup answers what a fill of the entry it asks for stored, less than the TTL before the
        lookup began or during it; or with the database's error when it had to ask. */
    method Lookup(index: Index, wanted: string, v: Visit) returns (r: Result<Option<KeyMeta>, DbError>)
      requires Valid() && clock <= v.now && v.Answers(history, index, wanted)
      modifies this
      ensures Valid() && clock <= v.stored && old(fills) <= fills
      ensures r == if wanted in old(Entries(index)) && v.now < old(Entries(index))[wanted].exp
                   then Ok(old(Entries(index))[wanted].meta) else v.Fetched()
      ensures r.Ok? ==> Answered(fills, index, wanted, r.value, v.now - ttl, v.stored)
    {
      var hit := Peek(index, wanted, v.now);
      if hit.Some? {
        AnsweredWidens(fills, index, wanted, hit.value, v.now - ttl, v.now, fills, v.now - ttl, v.stored);
        return Ok(hit.value);
      }
      r := Ask(index, wanted, v);
      if r.Ok? {
        ghost var f := FillRecord(index, wanted, r.value, v.now, v.stored);
        assert StoredBy(f, index, wanted, r.value, v.now - ttl, v.stored);
      }
    }
  }
}
