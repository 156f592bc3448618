/** Admission: a presented credential to its key row and that key's root, through the cache on the
    proxy and by one read in the api. Signature checks and hashing are inputs. */
module Auth {
  import opened Wrappers
  import opened Rows
  import opened Gateway
  import opened KeyCache
  import KeyLifecycle

  /** What the request carries: an opaque secret by its hash, a token with the jti its signature
      check gave, or nothing usable. */
  datatype Presented = Blank | Opaque(hash: string) | Jwt(jti: Option<string>) | Other

  datatype Credential = Credential(keyId: KeyId, name: string, models: seq<string>, overBudget: bool,
                                   keyType: KeyType, parent: Option<KeyId>, root: Option<KeyId>)

  function CredentialOf(k: KeyMeta, overBudget: bool): Credential {
    Credential(k.id, k.name, k.models, overBudget, k.keyType, k.parent, k.root)
  }

  predicate HasOtherRoot(k: KeyMeta) {
    k.root.Some? && k.root.value != k.id
  }

  // ---------------------------------------------------------------------------
  // What admission decides, with the key row and the root row each read from a table
  // ---------------------------------------------------------------------------

  ghost predicate Resolved(roots: map<KeyId, Key>, row: Option<KeyMeta>, keyAt: int, rootAt: int,
                           res: Option<Credential>)
  {
    if !Live(row, keyAt) then res == None
    else if HasOtherRoot(row.value) then
      exists root :: IsRow(roots, ById, row.value.root.value, root) && RootDecides(row.value, root, rootAt, res)
    else res == Some(CredentialOf(row.value, row.value.status == OverBudget))
  }

  ghost predicate RootDecides(k: KeyMeta, root: Option<KeyMeta>, rootAt: int, res: Option<Credential>) {
    if !Live(root, rootAt) then res == None
    else res == Some(CredentialOf(k, k.status == OverBudget || root.value.status == OverBudget))
  }

  ghost predicate LookedUp(keys: map<KeyId, Key>, index: Index, wanted: string, roots: map<KeyId, Key>,
                           keyAt: int, rootAt: int, res: Option<Credential>)
  {
    exists row :: IsRow(keys, index, wanted, row) && Resolved(roots, row, keyAt, rootAt, res)
  }

  /** Whether the credential names a row to look up, and which. */
  predicate Wants(p: Presented) {
    p.Opaque? || (p.Jwt? && p.jti.Some?)
  }

  function WantedIndex(p: Presented): Index {
    if p.Opaque? then ByHash else ById
  }

  function Wanted(p: Presented): string
    requires Wants(p)
  {
    match p
    case Opaque(hash) => hash
    case Jwt(Some(jti)) => jti
  }

  // ---------------------------------------------------------------------------
  // The proxy's decision, on rows its cache's fills saw
  // ---------------------------------------------------------------------------

  /** A fill of this entry, stored within (after, until], lasted over the instant `read`. */
  ghost predicate Window(f: FillRecord, read: int, index: Index, wanted: string, after: int, until: int) {
    f.index == index && f.wanted == wanted && after < f.stored <= until && f.started <= read <= f.stored
  }

  ghost predicate SeenIn(history: History, f: FillRecord, read: int, index: Index, wanted: string, after: int,
                         until: int, row: Option<KeyMeta>)
  {
    Window(f, read, index, wanted, after, until) && read in history && IsRow(history[read], index, wanted, row)
  }

  ghost predicate Seen(history: History, fills: set<FillRecord>, index: Index, wanted: string, after: int, until: int,
                       row: Option<KeyMeta>)
  {
    exists f, read :: f in fills && SeenIn(history, f, read, index, wanted, after, until, row)
  }

  /** The decision on a key row, its root seen in a fill stored less than the TTL before `keyAt`. */
  ghost predicate RecentlyResolved(history: History, fills: set<FillRecord>, ttl: nat, row: Option<KeyMeta>, keyAt: int,
                                   rootAt: int, res: Option<Credential>)
  {
    if !Live(row, keyAt) then res == None
    else if HasOtherRoot(row.value) then
      exists root :: Seen(history, fills, ById, row.value.root.value, keyAt - ttl, rootAt, root)
                     && RootDecides(row.value, root, rootAt, res)
    else res == Some(CredentialOf(row.value, row.value.status == OverBudget))
  }

  /** The decision for a request that began at `now`. */
  ghost predicate RecentLookUp(history: History, fills: set<FillRecord>, ttl: nat, index: Index, wanted: string,
                               now: int, keyAt: int, rootAt: int, res: Option<Credential>)
  {
    exists row :: Seen(history, fills, index, wanted, now - ttl, keyAt, row)
                  && RecentlyResolved(history, fills, ttl, row, keyAt, rootAt, res)
  }

  ghost predicate CachedRootDecides(k: KeyMeta, root: Option<KeyMeta>, rootAt: int, res: Option<Credential>) {
    if !Usable(root, rootAt) then res == None
    else res == Some(CredentialOf(k, k.status == OverBudget || root.value.status == OverBudget))
  }

  ghost predicate CachedRoot(fills: set<FillRecord>, ttl: nat, k: KeyMeta, keyAt: int, rootAt: int,
                             res: Option<Credential>)
    requires HasOtherRoot(k)
  {
    exists root :: Answered(fills, ById, k.root.value, root, keyAt - ttl, rootAt)
                   && CachedRootDecides(k, root, rootAt, res)
  }

  /** The decision on a cached key row and a cached root. */
  ghost predicate CachedResolved(fills: set<FillRecord>, ttl: nat, k: Option<KeyMeta>, keyAt: int, rootAt: int,
                                 res: Option<Credential>)
  {
    if !Usable(k, keyAt) then res == None
    else if HasOtherRoot(k.value) then CachedRoot(fills, ttl, k.value, keyAt, rootAt, res)
    else res == Some(CredentialOf(k.value, k.value.status == OverBudget))
  }

  /** Using what a fill stored is using the row that fill saw. */
  lemma AnswerIsSeen(history: History, fills: set<FillRecord>, clock: int, index: Index, wanted: string,
                     meta: Option<KeyMeta>, after: int, until: int, at: int) returns (row: Option<KeyMeta>)
    requires FillsOk(history, fills, clock) && Answered(fills, index, wanted, meta, after, until) && until <= at
    ensures Seen(history, fills, index, wanted, after, until, row)
    ensures Usable(meta, at) <==> Live(row, at)
    ensures Live(row, at) ==> meta == row
  {
    var f := AnsweringFill(history, fills, clock, index, wanted, meta, after, until);
    var read, checked;
    read, row, checked :| Reading(history, index, wanted, meta, f.started, f.stored, read, row, checked);
    CachedIsLive(row, checked, at);
    assert SeenIn(history, f, read, index, wanted, after, until, row);
  }

  /** So a cached decision is the decision on rows seen. */
  lemma CachedIsRecent(history: History, fills: set<FillRecord>, clock: int, ttl: nat, index: Index, wanted: string,
                       k: Option<KeyMeta>, now: int, keyAt: int, rootAt: int, res: Option<Credential>)
    requires FillsOk(history, fills, clock) && Answered(fills, index, wanted, k, now - ttl, keyAt)
    requires CachedResolved(fills, ttl, k, keyAt, rootAt, res)
    ensures RecentLookUp(history, fills, ttl, index, wanted, now, keyAt, rootAt, res)
  {
    var row := AnswerIsSeen(history, fills, clock, index, wanted, k, now - ttl, keyAt, keyAt);
    if Usable(k, keyAt) && HasOtherRoot(k.value) {
      var id := k.value.root.value;
      var meta :| Answered(fills, ById, id, meta, keyAt - ttl, rootAt) && CachedRootDecides(k.value, meta, rootAt, res);
      var root := AnswerIsSeen(history, fills, clock, ById, id, meta, keyAt - ttl, rootAt, rootAt);
      assert RootDecides(row.value, root, rootAt, res);
    }
    assert RecentlyResolved(history, fills, ttl, row, keyAt, rootAt, res);
  }

  // ---------------------------------------------------------------------------
  // What an answer says, on the rows the fills saw
  // ---------------------------------------------------------------------------

  ghost predicate Row(keys: map<KeyId, Key>, id: KeyId, now: int) {
    id in keys && keys[id].status != Revoked && (keys[id].expiresAt.None? || keys[id].expiresAt.value > now)
  }

  /** An admitted key's row was seen, not revoked, in a fill of the entry the credential names that
      was stored less than the TTL before the request began, and so was its root's row in a fill of
      the root's entry; both were unexpired when used. */
  lemma AdmittedRowsAreRecent(history: History, fills: set<FillRecord>, ttl: nat, index: Index, wanted: string,
                              now: int, keyAt: int, rootAt: int, c: Credential)
    returns (keyFill: FillRecord, readKey: int, rootFill: FillRecord, readRoot: int)
    requires RecentLookUp(history, fills, ttl, index, wanted, now, keyAt, rootAt, Some(c))
    ensures keyFill in fills && Window(keyFill, readKey, index, wanted, now - ttl, keyAt) && readKey in history
    ensures Row(history[readKey], c.keyId, keyAt) && Matches(index, wanted, c.keyId, history[readKey][c.keyId])
    ensures var k := history[readKey][c.keyId];
            && c.name == k.name && c.models == k.models && c.keyType == k.keyType
            && c.parent == k.parent && c.root == k.root
    ensures c.root.Some? && c.root.value != c.keyId ==>
              && rootFill in fills && Window(rootFill, readRoot, ById, c.root.value, keyAt - ttl, rootAt)
              && readRoot in history && Row(history[readRoot], c.root.value, rootAt)
    ensures c.overBudget <==>
              || history[readKey][c.keyId].status == OverBudget
              || (c.root.Some? && c.root.value != c.keyId && history[readRoot][c.root.value].status == OverBudget)
  {
    var row :| Seen(history, fills, index, wanted, now - ttl, keyAt, row)
      && RecentlyResolved(history, fills, ttl, row, keyAt, rootAt, Some(c));
    keyFill, readKey :| keyFill in fills && SeenIn(history, keyFill, readKey, index, wanted, now - ttl, keyAt, row);
    rootFill, readRoot := keyFill, readKey;
    if HasOtherRoot(row.value) {
      var id := row.value.root.value;
      var root :| Seen(history, fills, ById, id, keyAt - ttl, rootAt, root)
        && RootDecides(row.value, root, rootAt, Some(c));
      rootFill, readRoot :| rootFill in fills
        && SeenIn(history, rootFill, readRoot, ById, id, keyAt - ttl, rootAt, root);
    }
  }

  /** The row is the one the request names: by its hash, or by the token's jti. */
  ghost predicate IsNamed(p: Presented, id: KeyId, k: Key) {
    match p
    case Opaque(hash) => k.keyHash == Some(hash)
    case Jwt(Some(jti)) => id == jti
    case _ => false
  }

  /** A fill stored within (after, until] that read the key table at `read`. */
  ghost predicate ReadIn(history: History, fills: set<FillRecord>, f: FillRecord, read: int, after: int, until: int) {
    f in fills && after < f.stored <= until && f.started <= read <= f.stored && read in history
  }

  /** The admitted key is the one the request names, as a recent fill read it. */
  ghost predicate Presents(history: History, fills: set<FillRecord>, after: int, p: Presented, keyAt: int,
                           c: Credential)
  {
    exists f, read :: ReadIn(history, fills, f, read, after, keyAt)
      && c.keyId in history[read] && IsNamed(p, c.keyId, history[read][c.keyId]) && Row(history[read], c.keyId, keyAt)
  }

  /** Why a request is denied: a recent fill read no row it names, or one that was revoked or has
      expired, or a recent fill of its root read such a one or none. */
  ghost predicate Denies(history: History, fills: set<FillRecord>, after: int, p: Presented, keyAt: int,
                         rootAfter: int, rootAt: int)
  {
    exists f, read :: ReadIn(history, fills, f, read, after, keyAt)
      && ((forall id :: id in history[read] ==> !IsNamed(p, id, history[read][id]))
          || exists id :: id in history[read] && IsNamed(p, id, history[read][id])
               && (!Row(history[read], id, keyAt)
                   || RootFails(history, fills, history[read][id].root, id, rootAfter, rootAt)))
  }

  ghost predicate RootFails(history: History, fills: set<FillRecord>, root: Option<KeyId>, id: KeyId, rootAfter: int,
                            rootAt: int)
  {
    && root.Some? && root.value != id
    && exists f, read :: ReadIn(history, fills, f, read, rootAfter, rootAt) && !Row(history[read], root.value, rootAt)
  }

  lemma AdmittedIsPresented(history: History, fills: set<FillRecord>, ttl: nat, p: Presented, now: int, keyAt: int,
                            rootAt: int, c: Credential)
    requires Wants(p)
    requires RecentLookUp(history, fills, ttl, WantedIndex(p), Wanted(p), now, keyAt, rootAt, Some(c))
    ensures Presents(history, fills, now - ttl, p, keyAt, c)
  {
    var f, read, _, _ := AdmittedRowsAreRecent(history, fills, ttl, WantedIndex(p), Wanted(p), now, keyAt, rootAt, c);
    assert ReadIn(history, fills, f, read, now - ttl, keyAt);
    assert IsNamed(p, c.keyId, history[read][c.keyId]);
  }

  lemma DeniedHasReason(history: History, fills: set<FillRecord>, ttl: nat, p: Presented, now: int, keyAt: int,
                        rootAt: int)
    requires Wants(p)
    requires RecentLookUp(history, fills, ttl, WantedIndex(p), Wanted(p), now, keyAt, rootAt, None)
    ensures Denies(history, fills, now - ttl, p, keyAt, keyAt - ttl, rootAt)
  {
    var index, wanted := WantedIndex(p), Wanted(p);
    var row :| Seen(history, fills, index, wanted, now - ttl, keyAt, row)
      && RecentlyResolved(history, fills, ttl, row, keyAt, rootAt, None);
    var f, read :| f in fills && SeenIn(history, f, read, index, wanted, now - ttl, keyAt, row);
    assert ReadIn(history, fills, f, read, now - ttl, keyAt);
    NamedIsMatched(history[read], p);
    if row.Some? && Live(row, keyAt) {
      DeniedByRoot(history, fills, ttl, row.value, keyAt, rootAt);
    }
    assert row.Some? ==> IsNamed(p, row.value.id, history[read][row.value.id]);
  }

  lemma NamedIsMatched(keys: map<KeyId, Key>, p: Presented)
    requires Wants(p)
    ensures forall id :: id in keys ==> (IsNamed(p, id, keys[id]) <==> Matches(WantedIndex(p), Wanted(p), id, keys[id]))
  {
  }

  /** An answer for a request that names nothing is a denial; for any other it has its reason. */
  ghost predicate Explained(history: History, fills: set<FillRecord>, ttl: nat, p: Presented, now: int, keyAt: int,
                            rootAt: int, res: Option<Credential>)
  {
    match res
    case Some(c) => Presents(history, fills, now - ttl, p, keyAt, c)
    case None => (p.Opaque? || (p.Jwt? && p.jti.Some?)) ==>
      Denies(history, fills, now - ttl, p, keyAt, keyAt - ttl, rootAt)
  }

  lemma Explain(history: History, fills: set<FillRecord>, ttl: nat, p: Presented, now: int, keyAt: int, rootAt: int,
                res: Option<Credential>)
    requires Wants(p) && RecentLookUp(history, fills, ttl, WantedIndex(p), Wanted(p), now, keyAt, rootAt, res)
    ensures Explained(history, fills, ttl, p, now, keyAt, rootAt, res)
  {
    match res
    case Some(c) => AdmittedIsPresented(history, fills, ttl, p, now, keyAt, rootAt, c);
    case None => DeniedHasReason(history, fills, ttl, p, now, keyAt, rootAt);
  }

  lemma DeniedByRoot(history: History, fills: set<FillRecord>, ttl: nat, k: KeyMeta, keyAt: int, rootAt: int)
    requires Live(Some(k), keyAt) && RecentlyResolved(history, fills, ttl, Some(k), keyAt, rootAt, None)
    ensures RootFails(history, fills, k.root, k.id, keyAt - ttl, rootAt)
  {
    var id := k.root.value;
    var root :| Seen(history, fills, ById, id, keyAt - ttl, rootAt, root) && RootDecides(k, root, rootAt, None);
    var f, read :| f in fills && SeenIn(history, f, read, ById, id, keyAt - ttl, rootAt, root);
    assert ReadIn(history, fills, f, read, keyAt - ttl, rootAt);
    if id in history[read] {
      assert Matches(ById, id, id, history[read][id]);
    }
  }

  class Auth {
    const keys: Cache

    constructor (keys: Cache)
      ensures this.keys == keys
    {
      this.keys := keys;
    }

    /** The root's part of `toCredential`, for a usable key row. */
    method CheckRoot(k: KeyMeta, keyAt: int, v: Visit, rootAt: int) returns (r: Result<Option<Credential>, DbError>)
      requires HasOtherRoot(k) && keys.Valid() && keys.clock <= v.now && keyAt <= v.now && v.stored <= rootAt
      requires v.Answers(keys.history, ById, k.root.value)
      modifies keys
      ensures keys.Valid() && keys.clock <= rootAt && old(keys.fills) <= keys.fills
      ensures r.Err? ==> v.answer.Err?
      ensures r.Ok? ==> CachedRoot(keys.fills, keys.ttl, k, keyAt, rootAt, r.value)
    {
      var found := keys.Lookup(ById, k.root.value, v);
      if found.Err? {
        return Err(found.error);
      }
      AnsweredWidens(keys.fills, ById, k.root.value, found.value, v.now - keys.ttl, v.stored,
                     keys.fills, keyAt - keys.ttl, rootAt);
      if !Usable(found.value, rootAt) {
        r := Ok(None);
      } else {
        r := Ok(Some(CredentialOf(k, k.status == OverBudget || found.value.value.status == OverBudget)));
      }
      assert CachedRootDecides(k, found.value, rootAt, r.value);
    }

    /** `root` is what a lookup of each root id would meet. */
    method ToCredential(k: Option<KeyMeta>, keyAt: int, root: string -> Visit, rootAt: int)
      returns (r: Result<Option<Credential>, DbError>)
      requires keys.Valid() && keys.clock <= keyAt <= rootAt
      requires forall id :: keyAt <= root(id).now && root(id).stored <= rootAt
                            && root(id).Answers(keys.history, ById, id)
      modifies keys
      ensures keys.Valid() && keys.clock <= rootAt && old(keys.fills) <= keys.fills
      ensures r.Err? ==> Usable(k, keyAt) && HasOtherRoot(k.value) && root(k.value.root.value).answer.Err?
      ensures r.Ok? ==> CachedResolved(keys.fills, keys.ttl, k, keyAt, rootAt, r.value)
    {
      if !Usable(k, keyAt) {
        return Ok(None);
      }
      if k.value.root.Some? && k.value.root.value != k.value.id {
        var v := root(k.value.root.value);
        keys.Others(v.now);
        r := CheckRoot(k.value, keyAt, v, rootAt);
        return;
      }
      r := Ok(Some(CredentialOf(k.value, k.value.status == OverBudget)));
    }

    /** An answer is the decision on a key row and a root row that fills of those very entries saw,
        each stored less than the TTL before the request, or during it; both unexpired when used. */
    method Verify(p: Presented, key: Visit, keyAt: int, root: string -> Visit, rootAt: int)
      returns (r: Result<Option<Credential>, DbError>)
      requires keys.Valid() && keys.clock <= key.now && key.stored <= keyAt <= rootAt
      requires Wants(p) ==> key.Answers(keys.history, WantedIndex(p), Wanted(p))
      requires forall id :: keyAt <= root(id).now && root(id).stored <= rootAt
                            && root(id).Answers(keys.history, ById, id)
      modifies keys
      ensures keys.Valid() && old(keys.fills) <= keys.fills
      ensures !Wants(p) ==> r == Ok(None)
      ensures r.Err? ==> key.answer.Err? || exists id :: root(id).answer.Err?
      ensures r.Ok? ==> Explained(keys.history, keys.fills, keys.ttl, p, key.now, keyAt, rootAt, r.value)
      ensures r.Ok? && Wants(p) ==>
                RecentLookUp(keys.history, keys.fills, keys.ttl, WantedIndex(p), Wanted(p), key.now, keyAt, rootAt,
                             r.value)
    {
      if !Wants(p) {
        return Ok(None);
      }
      var index, wanted := WantedIndex(p), Wanted(p);
      var found := keys.Lookup(index, wanted, key);
      if found.Err? {
        return Err(found.error);
      }
      ghost var fills := keys.fills;
      keys.Others(keyAt);
      r := ToCredential(found.value, keyAt, root, rootAt);
      if r.Ok? {
        AnsweredWidens(fills, index, wanted, found.value, key.now - keys.ttl, key.stored,
                       keys.fills, key.now - keys.ttl, keyAt);
        CachedIsRecent(keys.history, keys.fills, keys.clock, keys.ttl, index, wanted, found.value, key.now, keyAt,
                       rootAt, r.value);
        Explain(keys.history, keys.fills, keys.ttl, p, key.now, keyAt, rootAt, r.value);
      }
    }
  }

  /** The history is that of a run of mints, derives, revokes and the api's writes. */
  ghost predicate IsHistoryOf(history: History, run: seq<KeyLifecycle.State>, at: imap<int, nat>) {
    && (forall t :: t in history ==> t in at && at[t] < |run| && history[t] == run[at[t]].db.keys)
    && (forall t, u :: t in history && u in history && t <= u ==> at[t] <= at[u])
  }

  /** A fill of the key's or the root's entry that can still answer a request made at `now`. */
  predicate CanAnswer(f: FillRecord, index: Index, wanted: string, root: KeyId, after: int) {
    ((f.index == index && f.wanted == wanted) || (f.index == ById && f.wanted == root)) && f.stored > after
  }

  /** Once a key is revoked, a request is admitted neither for it nor for any key rooted at it, even
      one inserted after the cascade, as soon as no fill of the two entries it needs that began
      before the revocation was stored within the last TTL: that is, from the revocation plus the
      TTL plus the length of such a fill on. */
  lemma RevokedRootAdmitsNobody(history: History, run: seq<KeyLifecycle.State>, at: imap<int, nat>,
                                config: KeyLifecycle.Config, root: KeyId, revoked: int, fills: set<FillRecord>,
                                ttl: nat, index: Index, wanted: string, now: int, keyAt: int, rootAt: int,
                                c: Credential)
    requires KeyLifecycle.IsRun(run, config) && IsHistoryOf(history, run, at)
    requires revoked in history && root in history[revoked] && history[revoked][root].status == Revoked
    requires forall f :: f in fills && CanAnswer(f, index, wanted, root, now - ttl) ==> revoked <= f.started
    requires now <= keyAt && RecentLookUp(history, fills, ttl, index, wanted, now, keyAt, rootAt, Some(c))
    ensures c.keyId != root && c.root != Some(root)
  {
    var keyFill, readKey, rootFill, readRoot :=
      AdmittedRowsAreRecent(history, fills, ttl, index, wanted, now, keyAt, rootAt, c);
    assert CanAnswer(keyFill, index, wanted, root, now - ttl);
    KeyLifecycle.RowOutlasts(run, config, at[revoked], at[readKey], root);
    if c.root == Some(root) && c.keyId != root {
      assert CanAnswer(rootFill, index, wanted, root, now - ttl);
      KeyLifecycle.RowOutlasts(run, config, at[revoked], at[readRoot], root);
    }
  }

  // ---------------------------------------------------------------------------
  // The api's own admission
  // ---------------------------------------------------------------------------

  /** The rows of `verifyGatewayCredential`'s one query. */
  ghost predicate ApiRow(keys: map<KeyId, Key>, p: Presented, now: int, id: KeyId) {
    && Row(keys, id, now)
    && (match p
        case Opaque(hash) => keys[id].keyHash == Some(hash) && keys[id].keyType == Top
        case Jwt(Some(jti)) => id == jti && keys[id].keyType == Derived
        case _ => false)
    && Row(keys, keys[id].root.GetOr(id), now)
  }

  ghost predicate ApiVerdict(keys: map<KeyId, Key>, p: Presented, now: int, res: Option<(KeyId, KeyType)>) {
    match res
    case None => forall id :: id in keys ==> !ApiRow(keys, p, now, id)
    case Some((id, keyType)) => ApiRow(keys, p, now, id) && keyType == keys[id].keyType
  }

  function ScopeOf(res: Option<Credential>): Option<(KeyId, KeyType)> {
    match res
    case None => None
    case Some(c) => Some((c.keyId, c.keyType))
  }

  predicate IsTopToken(keys: map<KeyId, Key>, p: Presented) {
    p.Jwt? && p.jti.Some? && p.jti.value in keys && keys[p.jti.value].keyType == Top
  }

  lemma AdmittedIsApiRow(keys: map<KeyId, Key>, p: Presented, now: int, c: Credential)
    requires KeyLifecycle.KeysOk(keys) && Wants(p)
    requires LookedUp(keys, WantedIndex(p), Wanted(p), keys, now, now, Some(c))
    ensures c.keyId in keys && c.keyType == keys[c.keyId].keyType
    ensures Matches(WantedIndex(p), Wanted(p), c.keyId, keys[c.keyId])
    ensures ApiRow(keys, p, now, c.keyId) <==> !IsTopToken(keys, p)
  {
  }

  lemma DeniedIsNoApiRow(keys: map<KeyId, Key>, p: Presented, now: int, id: KeyId)
    requires KeyLifecycle.KeysOk(keys) && Wants(p) && id in keys
    requires LookedUp(keys, WantedIndex(p), Wanted(p), keys, now, now, None)
    ensures !ApiRow(keys, p, now, id)
  {
  }

  /** On one table at one instant the two admissions give the same key and type, unless the
      credential is a signed token naming a live top-level key: the proxy's lookup by id does not
      check the type. The api signs tokens only for derived keys. */
  lemma AdmissionsAgree(keys: map<KeyId, Key>, p: Presented, now: int, res: Option<Credential>,
                        api: Option<(KeyId, KeyType)>)
    requires KeyLifecycle.KeysOk(keys) && ApiVerdict(keys, p, now, api)
    requires if Wants(p) then LookedUp(keys, WantedIndex(p), Wanted(p), keys, now, now, res) else res == None
    ensures api == ScopeOf(res) <==> !(IsTopToken(keys, p) && Row(keys, p.jti.value, now))
  {
    if Wants(p) {
      if IsTopToken(keys, p) {
        assert KeyLifecycle.KeyOk(keys, p.jti.value);
      }
      if res.Some? {
        AdmittedIsApiRow(keys, p, now, res.value);
      } else {
        forall id | id in keys
          ensures !ApiRow(keys, p, now, id)
        {
          DeniedIsNoApiRow(keys, p, now, id);
        }
      }
    }
  }
}
