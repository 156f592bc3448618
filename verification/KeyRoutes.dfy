/** The handlers that write key rows, on the table they share: mint, derive, revoke and the budget
    update with its trigger. Between a handler's statements others run, except under the derive
    lock. */
module KeyRoutes {
  import opened Wrappers
  import opened Rows
  import opened Gateway
  import opened KeyLifecycle
  import DeriveLimits

  datatype DeriveRefusal = Rejected(error: DeriveError) | RateLimited | TooManyActive

  function ChildrenSince(keys: map<KeyId, Key>, createdAt: map<KeyId, int>, parent: KeyId, after: int): set<KeyId> {
    set k | k in keys && keys[k].parent == Some(parent) && k in createdAt && createdAt[k] > after
  }

  function ActiveChildren(keys: map<KeyId, Key>, parent: KeyId, now: int): set<KeyId> {
    set k | k in keys && keys[k].parent == Some(parent) && keys[k].status == Active
            && (keys[k].expiresAt.None? || keys[k].expiresAt.value > now)
  }

  // ---------------------------------------------------------------------------
  // The two limits, said on the rows
  // ---------------------------------------------------------------------------

  /** Which of the two limits a derive from `parent` meets on these rows: children made within the
      last minute, then active unexpired ones. */
  ghost predicate LimitVerdict(keys: map<KeyId, Key>, createdAt: map<KeyId, int>, parent: KeyId, start: int,
                               limits: DeriveLimits.Limits, r: Result<KeyId, DeriveRefusal>)
  {
    var recent := |set k | k in keys && keys[k].parent == Some(parent) && k in createdAt
                           && createdAt[k] > start - 60000|;
    var active := |set k | k in keys && keys[k].parent == Some(parent) && keys[k].status == Active
                           && (keys[k].expiresAt.Some? ==> keys[k].expiresAt.value > start)|;
    && (r == Err(RateLimited) <==> recent >= limits.rate)
    && (r == Err(TooManyActive) <==> recent < limits.rate && active >= limits.cap)
    && (r.Ok? <==> recent < limits.rate && active < limits.cap)
  }

  lemma CountsDecide(keys: map<KeyId, Key>, createdAt: map<KeyId, int>, parent: KeyId, start: int,
                     limits: DeriveLimits.Limits, r: Result<KeyId, DeriveRefusal>)
    requires var recent, active := |ChildrenSince(keys, createdAt, parent, start - DeriveLimits.WINDOW)|,
                                   |ActiveChildren(keys, parent, start)|;
             if recent >= limits.rate then r == Err(RateLimited)
             else if active >= limits.cap then r == Err(TooManyActive) else r.Ok?
    ensures LimitVerdict(keys, createdAt, parent, start, limits, r)
  {
    assert ChildrenSince(keys, createdAt, parent, start - DeriveLimits.WINDOW)
        == set k | k in keys && keys[k].parent == Some(parent) && k in createdAt && createdAt[k] > start - 60000;
    assert ActiveChildren(keys, parent, start)
        == set k | k in keys && keys[k].parent == Some(parent) && keys[k].status == Active
                   && (keys[k].expiresAt.Some? ==> keys[k].expiresAt.value > start);
  }

  /** The verdict is on the rows there were: a new row, and when it was made, are no part of it. */
  lemma VerdictWithout(keys: map<KeyId, Key>, createdAt: map<KeyId, int>, id: KeyId, child: Key, parent: KeyId,
                       start: int, limits: DeriveLimits.Limits, r: Result<KeyId, DeriveRefusal>)
    requires id !in keys && LimitVerdict(keys, createdAt, parent, start, limits, r)
    ensures LimitVerdict(keys - {id}, createdAt, parent, start, limits, r)
    ensures LimitVerdict(keys[id := child] - {id}, createdAt[id := start], parent, start, limits, r)
  {
    assert keys - {id} == keys == keys[id := child] - {id};
    assert (set k | k in keys && keys[k].parent == Some(parent) && k in createdAt && createdAt[k] > start - 60000)
        == set k | k in keys && keys[k].parent == Some(parent) && k in createdAt[id := start]
                   && createdAt[id := start][k] > start - 60000;
  }

  /** The parent's children made within the minute after `w`. */
  ghost function MadeIn(keys: map<KeyId, Key>, createdAt: map<KeyId, int>, parent: KeyId, w: int): set<KeyId> {
    set k | k in keys && keys[k].parent == Some(parent) && k in createdAt && w < createdAt[k] <= w + 60000
  }

  /** Any half-open minute of creation times holds at most `rate` children of a parent. */
  ghost predicate RateOk(keys: map<KeyId, Key>, createdAt: map<KeyId, int>, rate: nat) {
    forall parent, w :: |MadeIn(keys, createdAt, parent, w)| <= rate
  }

  lemma SmallerSet(a: set<KeyId>, b: set<KeyId>)
    requires a <= b
    ensures |a| <= |b|
  {
    assert b == a + (b - a);
  }

  lemma MadeInAfter(keys: map<KeyId, Key>, createdAt: map<KeyId, int>, id: KeyId, child: Key, start: int,
                    parent: KeyId, w: int)
    requires id !in keys
    ensures MadeIn(keys[id := child], createdAt[id := start], parent, w)
         == MadeIn(keys, createdAt, parent, w)
            + if child.parent == Some(parent) && w < start <= w + 60000 then {id} else {}
  {
  }

  /** A derive that found room in the last minute leaves every minute within the rate. */
  lemma DeriveKeepsRate(keys: map<KeyId, Key>, createdAt: map<KeyId, int>, id: KeyId, child: Key, parent: KeyId,
                        start: int, rate: nat)
    requires RateOk(keys, createdAt, rate) && id !in keys && child.parent == Some(parent)
    requires |ChildrenSince(keys, createdAt, parent, start - DeriveLimits.WINDOW)| < rate
    ensures RateOk(keys[id := child], createdAt[id := start], rate)
  {
    var later, made := keys[id := child], createdAt[id := start];
    forall p, w
      ensures |MadeIn(later, made, p, w)| <= rate
    {
      MadeInAfter(keys, createdAt, id, child, start, p, w);
      assert |MadeIn(keys, createdAt, p, w)| <= rate;
      if p == parent && w < start <= w + 60000 {
        SmallerSet(MadeIn(keys, createdAt, p, w),
                   ChildrenSince(keys, createdAt, parent, start - DeriveLimits.WINDOW));
      }
    }
  }

  lemma MintKeepsRate(keys: map<KeyId, Key>, createdAt: map<KeyId, int>, id: KeyId, key: Key, now: int, rate: nat)
    requires RateOk(keys, createdAt, rate) && id !in keys && key.parent.None?
    ensures RateOk(keys[id := key], createdAt[id := now], rate)
  {
    var later, made := keys[id := key], createdAt[id := now];
    forall p, w
      ensures |MadeIn(later, made, p, w)| <= rate
    {
      MadeInAfter(keys, createdAt, id, key, now, p, w);
      assert |MadeIn(keys, createdAt, p, w)| <= rate;
    }
  }

  lemma SameParentsKeepRate(keys: map<KeyId, Key>, later: map<KeyId, Key>, createdAt: map<KeyId, int>, rate: nat)
    requires RateOk(keys, createdAt, rate) && later.Keys == keys.Keys
    requires forall k :: k in keys ==> later[k].parent == keys[k].parent
    ensures RateOk(later, createdAt, rate)
  {
    forall p, w
      ensures |MadeIn(later, createdAt, p, w)| <= rate
    {
      assert MadeIn(later, createdAt, p, w) == MadeIn(keys, createdAt, p, w);
      assert |MadeIn(keys, createdAt, p, w)| <= rate;
    }
  }

  // The counts are those of the transaction's own model.

  /** `ids` lists the children of a parent, each once. */
  ghost predicate Lists(keys: map<KeyId, Key>, parent: KeyId, ids: seq<KeyId>) {
    && (forall i, j :: 0 <= i < j < |ids| ==> ids[i] != ids[j])
    && (forall k :: k in ids <==> k in keys && keys[k].parent == Some(parent))
  }

  function ChildrenOf(keys: map<KeyId, Key>, createdAt: map<KeyId, int>, parent: KeyId,
                      ids: seq<KeyId>): seq<DeriveLimits.Child>
    requires forall k :: k in ids ==> k in keys && k in createdAt
  {
    seq(|ids|, i requires 0 <= i < |ids| =>
      DeriveLimits.Child(parent, createdAt[ids[i]], keys[ids[i]].expiresAt, keys[ids[i]].status))
  }

  lemma {:induction false} SetIsCount(ids: seq<KeyId>, rows: seq<DeriveLimits.Child>, chosen: set<KeyId>,
                                      p: DeriveLimits.Child -> bool)
    requires |ids| == |rows| && forall i, j :: 0 <= i < j < |ids| ==> ids[i] != ids[j]
    requires forall i :: 0 <= i < |ids| ==> (p(rows[i]) <==> ids[i] in chosen)
    requires forall k :: k in chosen ==> k in ids
    ensures |chosen| == DeriveLimits.CountIf(rows, p)
  {
    if ids == [] {
      assert chosen == {};
    } else {
      var n := |ids| - 1;
      var last := ids[n];
      assert ids == ids[..n] + [last] && last !in ids[..n];
      SetIsCount(ids[..n], rows[..n], chosen - {last}, p);
    }
  }

  /** On any list of a parent's rows the two counts are those of `DeriveLimits`. */
  lemma CountsAreDeriveLimits(keys: map<KeyId, Key>, createdAt: map<KeyId, int>, parent: KeyId, start: int,
                              ids: seq<KeyId>)
    requires createdAt.Keys == keys.Keys && Lists(keys, parent, ids)
    ensures var rows := ChildrenOf(keys, createdAt, parent, ids);
            && |ChildrenSince(keys, createdAt, parent, start - DeriveLimits.WINDOW)|
               == DeriveLimits.CountIf(rows, DeriveLimits.IsRecent(parent, start))
            && |ActiveChildren(keys, parent, start)|
               == DeriveLimits.CountIf(rows, DeriveLimits.IsActive(parent, start))
  {
    var rows := ChildrenOf(keys, createdAt, parent, ids);
    forall i | 0 <= i < |ids|
      ensures ids[i] in keys && keys[ids[i]].parent == Some(parent)
    {
      assert ids[i] in ids;
    }
    SetIsCount(ids, rows, ChildrenSince(keys, createdAt, parent, start - DeriveLimits.WINDOW),
               DeriveLimits.IsRecent(parent, start));
    SetIsCount(ids, rows, ActiveChildren(keys, parent, start), DeriveLimits.IsActive(parent, start));
  }

  ghost predicate AllOutlast(keys: map<KeyId, Key>, later: map<KeyId, Key>) {
    forall k :: k in keys ==> Outlasts(keys, later, k)
  }

  lemma MintedKeysOk(keys: map<KeyId, Key>, id: KeyId, key: Key, hash: string)
    requires KeysOk(keys) && id !in keys && forall k :: k in keys ==> keys[k].keyHash != Some(hash)
    requires key.keyType == Top && key.keyHash == Some(hash) && key.parent.None? && key.root == Some(id)
    ensures KeysOk(keys[id := key])
  {
    AddedKeyOk(keys, id, key);
  }

  lemma DerivedKeysOk(keys: map<KeyId, Key>, read: ParentRead, req: DeriveRequest, nowMs: nat, c: Config, id: KeyId)
    requires KeysOk(keys) && id !in keys && read.id in keys && SameButStatus(read.row, keys[read.id])
    requires read.row.keyType == Top && CheckDerive(read.id, read.row, req, nowMs, c).Ok?
    ensures var child := CheckDerive(read.id, read.row, req, nowMs, c).value;
            KeysOk(keys[id := child]) && Attenuates(child, read.id, keys[read.id])
  {
    DeriveAttenuates(keys, read, req, nowMs, c);
    AddedKeyOk(keys, id, CheckDerive(read.id, read.row, req, nowMs, c).value);
  }

  lemma RevokedKeysOk(keys: map<KeyId, Key>, spend: map<KeyId, Spend>, id: KeyId)
    requires KeysOk(keys)
    ensures var after := RevokeTree(Db(keys, [], spend), id).keys;
            KeysOk(after) && after.Keys == keys.Keys
  {
    SameKeysOk(keys, RevokeTree(Db(keys, [], spend), id).keys);
  }

  lemma EditedKeysOk(keys: map<KeyId, Key>, spend: map<KeyId, Spend>, id: KeyId, budget: Option<int>)
    requires KeysOk(keys) && id in keys
    ensures var after := SetBudget(Db(keys, [], spend), id, budget).keys;
            KeysOk(after) && after.Keys == keys.Keys
  {
    SameKeysOk(keys, SetBudget(Db(keys, [], spend), id, budget).keys);
  }

  predicate IsParent(keys: map<KeyId, Key>, hash: string, p: KeyId) {
    p in keys && keys[p].keyType == Top && keys[p].keyHash == Some(hash)
  }

  lemma OneParent(keys: map<KeyId, Key>, hash: string, p: KeyId)
    requires KeysOk(keys) && IsParent(keys, hash, p)
    ensures forall q :: IsParent(keys, hash, q) ==> q == p
  {
  }

  /** Why a derive is refused before its transaction: no such parent, or its row fails a check. */
  ghost predicate Refuses(keys: map<KeyId, Key>, hash: string, req: DeriveRequest, nowMs: nat, c: Config,
                          e: DeriveError)
  {
    || (e == Unauthorized && forall p :: !IsParent(keys, hash, p))
    || exists p :: IsParent(keys, hash, p) && DeriveRefused(keys[p], req, nowMs, c, e)
  }

  /** What the checks decide for the one parent there is. */
  lemma ChecksSay(keys: map<KeyId, Key>, hash: string, p: KeyId, req: DeriveRequest, nowMs: nat, c: Config)
    requires KeysOk(keys) && IsParent(keys, hash, p)
    ensures forall e :: CheckDerive(p, keys[p], req, nowMs, c) == Err(e) <==> Refuses(keys, hash, req, nowMs, c, e)
    ensures CheckDerive(p, keys[p], req, nowMs, c).Ok? ==>
              && (forall e :: !DeriveRefused(keys[p], req, nowMs, c, e))
              && IsChild(p, keys[p], req, nowMs, c, CheckDerive(p, keys[p], req, nowMs, c).value)
  {
    OneParent(keys, hash, p);
    forall e
      ensures CheckDerive(p, keys[p], req, nowMs, c) == Err(e) <==> DeriveRefused(keys[p], req, nowMs, c, e)
    {
      DeriveRefusals(p, keys[p], req, nowMs, c, e);
    }
    DeriveIsGranted(p, keys[p], req, nowMs, c);
  }

  /** The trigger before an update of budget_usd: it may assign the new row's status. */
  method ReactivateOnBudgetRaise(was: Key, new_: Key, spent: int) returns (row: Key)
    ensures row.(status := new_.status) == new_
    ensures row.status == Active <==>
              new_.status == Active || (was.status == new_.status == OverBudget && !AtBudget(new_, spent))
    ensures row.status != Active ==> row.status == new_.status
  {
    row := new_;
    if was.status == OverBudget && new_.status == OverBudget {
      if new_.budget.None? || spent < new_.budget.value {
        row := row.(status := Active);
      }
    }
  }

  class KeyTable {
    const limits: DeriveLimits.Limits
    var keys: map<KeyId, Key>
    var createdAt: map<KeyId, int>
    var spend: map<KeyId, Spend>

    ghost predicate Valid()
      reads this
    {
      KeysOk(keys) && createdAt.Keys == keys.Keys && RateOk(keys, createdAt, limits.rate)
    }

    constructor (limits: DeriveLimits.Limits)
      ensures Valid() && keys == map[] && this.limits == limits
    {
      this.limits := limits;
      keys, createdAt, spend := map[], map[], map[];
    }

    /** What other handlers and ingest do meanwhile. Nobody else draws the id. */
    method Others(ghost id: KeyId)
      requires Valid() && id !in keys
      modifies this
      ensures Valid() && id !in keys && AllOutlast(old(keys), keys)
    {
    }

    /** POST /keys: the row goes in without a root, and a second write makes it its own root. */
    method Mint(req: MintRequest, teams: set<string>, hash: string, id: KeyId, now: int)
      returns (r: Result<KeyId, MintError>)
      requires Valid() && id !in keys && forall k :: k in keys ==> keys[k].keyHash != Some(hash)
      modifies this
      ensures Valid()
      ensures forall e :: r == Err(e) <==> MintRefused(req, teams, e)
      ensures r.Err? ==> keys == old(keys) && createdAt == old(createdAt)
      ensures r.Ok? ==> r == Ok(id) && id in keys && IsMinted(req, hash, id, keys[id])
                        && keys == old(keys)[id := keys[id]] && createdAt == old(createdAt)[id := now]
    {
      if req.team == "" {
        return Err(TeamRequired);
      }
      if req.name == "" {
        return Err(NameRequired);
      }
      var models := [ALL];
      match req.models {
        case Omitted =>
        case Given(ms) => models := ms;
        case Malformed => return Err(ModelsNotStrings);
      }
      if req.team !in teams {
        return Err(TeamNotFound);
      }
      var row := Key(req.team, req.name, Top, Some(hash), models, req.budget, Active, None, None, req.expiresAt);
      MintedKeysOk(keys, id, row.(root := Some(id)), hash);
      MintKeepsRate(keys, createdAt, id, row.(root := Some(id)), now, limits.rate);
      keys, createdAt := keys[id := row], createdAt[id := now];
      keys := keys[id := keys[id].(root := Some(id))];
      assert keys == old(keys)[id := row.(root := Some(id))];
      r := Ok(id);
    }

    /** SELECT ... WHERE key_hash = $1 AND key_type = 'top' LIMIT 1. */
    method FindTop(hash: string) returns (id: Option<KeyId>)
      ensures match id
              case None => forall k :: !IsParent(keys, hash, k)
              case Some(k) => IsParent(keys, hash, k)
    {
      if k :| k in keys && keys[k].keyType == Top && keys[k].keyHash == Some(hash) {
        id := Some(k);
      } else {
        id := None;
      }
    }

    /** The derive transaction, whole under the parent's lock: the two counts and the insert. */
    method InsertUnderLock(parentId: KeyId, child: Key, id: KeyId, start: int)
      returns (r: Result<KeyId, DeriveRefusal>)
      requires Valid() && id !in keys && KeysOk(keys[id := child]) && child.parent == Some(parentId)
      modifies this`keys, this`createdAt
      ensures Valid()
      ensures LimitVerdict(old(keys), old(createdAt), parentId, start, limits, r) && (r.Ok? ==> r == Ok(id))
      ensures keys == if r.Ok? then old(keys)[id := child] else old(keys)
      ensures createdAt == if r.Ok? then old(createdAt)[id := start] else old(createdAt)
    {
      if |ChildrenSince(keys, createdAt, parentId, start - DeriveLimits.WINDOW)| >= limits.rate {
        CountsDecide(keys, createdAt, parentId, start, limits, Err(RateLimited));
        return Err(RateLimited);
      }
      if |ActiveChildren(keys, parentId, start)| >= limits.cap {
        CountsDecide(keys, createdAt, parentId, start, limits, Err(TooManyActive));
        return Err(TooManyActive);
      }
      CountsDecide(keys, createdAt, parentId, start, limits, Ok(id));
      DeriveKeepsRate(keys, createdAt, id, child, parentId, start, limits.rate);
      keys, createdAt := keys[id := child], createdAt[id := start];
      r := Ok(id);
    }

    /** POST /keys/derive: the parent is read, then anything may happen, then the transaction. The
        checks refuse exactly as `Refuses` says; past them the two limits, in that order, refuse for
        what they find at the transaction. */
    method Derive(hash: string, req: DeriveRequest, id: KeyId, nowMs: nat, start: int, c: Config)
      returns (r: Result<KeyId, DeriveRefusal>)
      requires Valid() && id !in keys
      modifies this
      ensures Valid()
      ensures r.Err? ==> id !in keys
      ensures r.Ok? ==> r == Ok(id) && id in keys && createdAt[id] == start
      ensures forall e :: r == Err(Rejected(e)) <==> Refuses(old(keys), hash, req, nowMs, c, e)
      ensures forall p :: IsParent(old(keys), hash, p) && !(r.Err? && r.error.Rejected?) ==>
                LimitVerdict(keys - {id}, createdAt, p, start, limits, r)
      ensures r.Ok? ==> IsDerived(keys, id, hash, old(keys), req, nowMs, c)
    {
      var found := FindTop(hash);
      if found.None? {
        return Err(Rejected(Unauthorized));
      }
      var parentId, parent := found.value, keys[found.value];
      OneParent(keys, hash, parentId);
      var checked := CheckDerive(parentId, parent, req, nowMs, c);
      ChecksSay(keys, hash, parentId, req, nowMs, c);
      if checked.Err? {
        return Err(Rejected(checked.error));
      }
      Others(id);
      assert Outlasts(old(keys), keys, parentId);
      DerivedKeysOk(keys, ParentRead(parentId, parent), req, nowMs, c, id);
      ghost var mid, midAt := keys, createdAt;
      r := InsertUnderLock(parentId, checked.value, id, start);
      VerdictWithout(mid, midAt, id, checked.value, parentId, start, limits, r);
    }

    /** UPDATE ... SET status = 'revoked' WHERE id = $1 OR root_key_id = $1; None when there is no
        such key. */
    method Revoke(id: KeyId) returns (revoked: Option<nat>)
      requires Valid()
      modifies this`keys
      ensures Valid()
      ensures revoked.None? <==> id !in old(keys)
      ensures keys == if id in old(keys) then RevokeTree(Db(old(keys), [], spend), id).keys else old(keys)
      ensures if id in old(keys) then RevokedExactly(old(keys), id, keys) else keys == old(keys)
      ensures revoked.Some? ==> revoked.value == |set k | k in old(keys) && (k == id || old(keys)[k].root == Some(id))|
    {
      if id !in keys {
        return None;
      }
      RevokedKeysOk(keys, spend, id);
      SameParentsKeepRate(keys, RevokeTree(Db(keys, [], spend), id).keys, createdAt, limits.rate);
      keys := RevokeTree(Db(keys, [], spend), id).keys;
      assert TreeOf(keys, id) == TreeOf(old(keys), id);
      revoked := Some(|TreeOf(keys, id)|);
    }

    /** UPDATE ... SET budget_usd: the trigger assigns the new row's status. */
    method UpdateBudget(id: KeyId, budget: Option<int>)
      requires Valid() && id in keys
      modifies this`keys
      ensures Valid() && keys == SetBudget(Db(old(keys), [], spend), id, budget).keys
      ensures keys == old(keys)[id := keys[id]]
      ensures var was, row, spent := old(keys)[id], keys[id], SpentOn(spend, id).spent;
              && row.budget == budget && row.(budget := was.budget, status := was.status) == was
              && row.status == if was.status == OverBudget && (budget.Some? ==> spent < budget.value) then Active
                               else was.status
    {
      EditedKeysOk(keys, spend, id, budget);
      SameParentsKeepRate(keys, SetBudget(Db(keys, [], spend), id, budget).keys, createdAt, limits.rate);
      var row := ReactivateOnBudgetRaise(keys[id], keys[id].(budget := budget), SpentOn(spend, id).spent);
      assert keys[id := row] == SetBudget(Db(keys, [], spend), id, budget).keys;
      keys := keys[id := row];
    }
  }

  /** The key and all keys rooted at it are revoked, and nothing else is touched. */
  ghost predicate RevokedExactly(before: map<KeyId, Key>, id: KeyId, after: map<KeyId, Key>) {
    && after.Keys == before.Keys
    && forall k :: k in before ==>
         after[k] == if k == id || before[k].root == Some(id) then before[k].(status := Revoked) else before[k]
  }

  /** The key and all keys rooted at it. */
  function TreeOf(keys: map<KeyId, Key>, id: KeyId): set<KeyId> {
    set k | k in keys && (k == id || keys[k].root == Some(id))
  }

  /** The new row is what the checks make of a parent as it was read, and attenuates that parent. */
  ghost predicate IsDerived(keys: map<KeyId, Key>, id: KeyId, hash: string, before: map<KeyId, Key>, req: DeriveRequest,
                            nowMs: nat, c: Config)
    requires id in keys
  {
    exists p :: p in before && before[p].keyHash == Some(hash) && p in keys
      && (forall e :: !DeriveRefused(before[p], req, nowMs, c, e))
      && IsChild(p, before[p], req, nowMs, c, keys[id]) && Attenuates(keys[id], p, keys[p])
  }
}
