/** Minting, deriving and revoking keys, and what every key in the table then satisfies. */
module KeyLifecycle {
  import opened Wrappers
  import opened Rows
  import opened Gateway

  // ---------------------------------------------------------------------------
  // Model grants
  // ---------------------------------------------------------------------------

  const ALL := "*"

  /** `modelAllowed`: what a key with these models may call. */
  predicate Grants(models: seq<string>, slug: string) {
    ALL in models || slug in models
  }

  predicate ModelsSubset(child: seq<string>, parent: seq<string>) {
    if ALL in child then ALL in parent
    else if ALL in parent then true
    else forall m :: m in child ==> m in parent
  }

  function Longer(models: seq<string>): (n: nat)
    ensures forall m :: m in models ==> |m| < n
  {
    if models == [] then 2
    else
      var rest := Longer(models[1..]);
      assert models == [models[0]] + models[1..];
      Max(rest, |models[0]| + 1)
  }

  lemma FreshSlug(models: seq<string>) returns (slug: string)
    ensures slug !in models && slug != ALL
  {
    slug := seq(Longer(models) + 1, _ => 'm');
  }

  /** The check is sound and complete: it holds exactly when the child can call no model the
      parent cannot, over all slugs there could be. */
  lemma ModelsSubsetIsInclusion(child: seq<string>, parent: seq<string>)
    ensures ModelsSubset(child, parent) <==>
              forall slug :: slug != ALL && Grants(child, slug) ==> Grants(parent, slug)
  {
    if ALL in child && ALL !in parent {
      var slug := FreshSlug(parent);
      assert Grants(child, slug) && !Grants(parent, slug);
    } else if !ModelsSubset(child, parent) {
      var m :| m in child && m !in parent;
      assert Grants(child, m) && !Grants(parent, m);
    }
  }

  // ---------------------------------------------------------------------------
  // Requests
  // ---------------------------------------------------------------------------

  /** Times are in milliseconds, TTLs in seconds. */
  datatype Config = Config(defaultTtl: nat, maxTtl: nat)

  /** A JSON field: left out, of the right type, or anything else. */
  datatype Arg<T> = Omitted | Given(value: T) | Malformed

  datatype MintRequest = MintRequest(team: string, name: string, models: Arg<seq<string>>, budget: Option<int>,
                                     expiresAt: Option<int>)

  datatype MintError = TeamRequired | NameRequired | ModelsNotStrings | TeamNotFound

  /** POST /keys. The row's root is set to its own id before the secret is handed out. */
  function CheckMint(req: MintRequest, teams: set<string>, hash: string, id: KeyId): Result<Key, MintError> {
    if req.team == "" then Err(TeamRequired)
    else if req.name == "" then Err(NameRequired)
    else if req.models.Malformed? then Err(ModelsNotStrings)
    else if req.team !in teams then Err(TeamNotFound)
    else Ok(Key(req.team, req.name, Top, Some(hash), if req.models.Given? then req.models.value else [ALL],
                req.budget, Active, None, Some(id), req.expiresAt))
  }

  datatype DeriveRequest = DeriveRequest(name: string, models: Arg<seq<string>>, ttl: Arg<real>, budget: Option<int>)

  datatype DeriveError = Unauthorized | CannotMint | BadModels | ModelsNotSubset | BadTtl | TtlTooLong | OutlivesParent

  /** POST /keys/derive up to its transaction: the child row for a parent row read earlier. */
  function CheckDerive(parentId: KeyId, parent: Key, req: DeriveRequest, nowMs: nat,
                       c: Config): Result<Key, DeriveError>
  {
    if parent.status != Active then Err(Unauthorized)
    else if parent.parent.Some? then Err(CannotMint)
    else if req.models.Malformed? || (req.models.Given? && req.models.value == []) then Err(BadModels)
    else
      var models := if req.models.Given? then req.models.value else [ALL];
      if !ModelsSubset(models, parent.models) then Err(ModelsNotSubset)
      else
        var ttl := match req.ttl case Given(t) => t case _ => c.defaultTtl as real;
        if req.ttl.Malformed? || ttl <= 0.0 then Err(BadTtl)
        else if ttl > c.maxTtl as real then Err(TtlTooLong)
        else
          var expSec := (nowMs / 1000) as real + ttl;
          if parent.expiresAt.Some? && expSec > (parent.expiresAt.value / 1000) as real then Err(OutlivesParent)
          else
            Ok(Key(parent.team, if req.name == "" then "derived" else req.name, Derived, None, models, req.budget,
                   Active, Some(parentId), parent.root, Some((expSec * 1000.0).Floor)))
  }

  // What the checks must say, on the request and the parent's row alone.

  /** Every model the child may call the parent may call. */
  ghost predicate Covers(parent: seq<string>, child: seq<string>) {
    forall slug :: slug != "*" && ("*" in child || slug in child) ==> "*" in parent || slug in parent
  }

  /** Each refusal of a mint, in the order of its checks. */
  ghost predicate MintRefused(req: MintRequest, teams: set<string>, e: MintError) {
    match e
    case TeamRequired => req.team == ""
    case NameRequired => req.team != "" && req.name == ""
    case ModelsNotStrings => req.team != "" && req.name != "" && req.models.Malformed?
    case TeamNotFound => req.team != "" && req.name != "" && !req.models.Malformed? && req.team !in teams
  }

  /** A top-level key as it was asked for. */
  ghost predicate IsMinted(req: MintRequest, hash: string, id: KeyId, k: Key) {
    && k.team == req.team && k.name == req.name && k.budget == req.budget && k.expiresAt == req.expiresAt
    && k.models == (if req.models.Given? then req.models.value else ["*"])
    && k.keyType == Top && k.keyHash == Some(hash) && k.status == Active && k.parent.None? && k.root == Some(id)
  }

  lemma MintIsGranted(req: MintRequest, teams: set<string>, hash: string, id: KeyId)
    ensures var r := CheckMint(req, teams, hash, id);
            && (forall e :: r == Err(e) <==> MintRefused(req, teams, e))
            && (r.Ok? ==> IsMinted(req, hash, id, r.value))
  {
  }

  ghost function ModelsAsked(req: DeriveRequest): seq<string> {
    if req.models.Given? then req.models.value else ["*"]
  }

  ghost predicate MayDerive(parent: Key) {
    parent.status == Active && parent.parent.None?
  }

  ghost predicate ModelsFit(parent: Key, req: DeriveRequest) {
    !req.models.Malformed? && ModelsAsked(req) != [] && Covers(parent.models, ModelsAsked(req))
  }

  ghost predicate TtlFits(req: DeriveRequest, c: Config) {
    !req.ttl.Malformed? && (req.ttl.Given? ==> 0.0 < req.ttl.value <= c.maxTtl as real)
    && (req.ttl.Omitted? ==> 0 < c.defaultTtl <= c.maxTtl)
  }

  ghost predicate TtlPositive(req: DeriveRequest, c: Config) {
    !req.ttl.Malformed? && (req.ttl.Given? ==> 0.0 < req.ttl.value) && (req.ttl.Omitted? ==> 0 < c.defaultTtl)
  }

  /** The second at which the child would expire. */
  ghost function ExpiryAsked(req: DeriveRequest, nowMs: nat, c: Config): real {
    (nowMs / 1000) as real + if req.ttl.Given? then req.ttl.value else c.defaultTtl as real
  }

  /** Each refusal of a derive, in the order of its checks. */
  ghost predicate DeriveRefused(parent: Key, req: DeriveRequest, nowMs: nat, c: Config, e: DeriveError) {
    match e
    case Unauthorized => parent.status != Active
    case CannotMint => parent.status == Active && parent.parent.Some?
    case BadModels => MayDerive(parent) && (req.models.Malformed? || ModelsAsked(req) == [])
    case ModelsNotSubset =>
      && MayDerive(parent) && !req.models.Malformed? && ModelsAsked(req) != []
      && !Covers(parent.models, ModelsAsked(req))
    case BadTtl => MayDerive(parent) && ModelsFit(parent, req) && !TtlPositive(req, c)
    case TtlTooLong => MayDerive(parent) && ModelsFit(parent, req) && TtlPositive(req, c) && !TtlFits(req, c)
    case OutlivesParent =>
      && MayDerive(parent) && ModelsFit(parent, req) && TtlFits(req, c)
      && parent.expiresAt.Some? && ExpiryAsked(req, nowMs, c) > (parent.expiresAt.value / 1000) as real
  }

  lemma CoversIsSubset(child: seq<string>, parent: seq<string>)
    ensures ModelsSubset(child, parent) <==> Covers(parent, child)
  {
    ModelsSubsetIsInclusion(child, parent);
    assert forall slug :: Grants(child, slug) <==> "*" in child || slug in child;
    assert forall slug :: Grants(parent, slug) <==> "*" in parent || slug in parent;
  }

  lemma DeriveRefusals(parentId: KeyId, parent: Key, req: DeriveRequest, nowMs: nat, c: Config, e: DeriveError)
    ensures CheckDerive(parentId, parent, req, nowMs, c) == Err(e) <==> DeriveRefused(parent, req, nowMs, c, e)
  {
    CoversIsSubset(ModelsAsked(req), parent.models);
  }

  /** A derived key as it was asked for, under its parent. */
  ghost predicate IsChild(parentId: KeyId, parent: Key, req: DeriveRequest, nowMs: nat, c: Config, k: Key) {
    && k.team == parent.team && k.name == (if req.name == "" then "derived" else req.name)
    && k.keyType == Derived && k.keyHash.None? && k.models == ModelsAsked(req) && k.budget == req.budget
    && k.status == Active && k.parent == Some(parentId) && k.root == parent.root
    && k.expiresAt == Some((ExpiryAsked(req, nowMs, c) * 1000.0).Floor)
  }

  /** A derived key never outlives its parent, nor the ceiling counted from its request. */
  lemma DerivedExpiry(parentId: KeyId, parent: Key, req: DeriveRequest, nowMs: nat, c: Config)
    requires CheckDerive(parentId, parent, req, nowMs, c).Ok?
    ensures var e := CheckDerive(parentId, parent, req, nowMs, c).value.expiresAt;
            && e.Some? && e.value <= nowMs + c.maxTtl * 1000
            && (parent.expiresAt.Some? ==> e.value <= parent.expiresAt.value)
  {
  }

  /** A derive is granted exactly when the parent is an active top-level key, the models are some
      strings and name nothing it does not grant, and the TTL is positive, under the ceiling and
      within the parent's; and then the child has what was asked for, under the parent's root. */
  lemma DeriveIsGranted(parentId: KeyId, parent: Key, req: DeriveRequest, nowMs: nat, c: Config)
    ensures var r := CheckDerive(parentId, parent, req, nowMs, c);
            && (r.Ok? <==>
                 && MayDerive(parent) && ModelsFit(parent, req) && TtlFits(req, c)
                 && (parent.expiresAt.Some? ==>
                      ExpiryAsked(req, nowMs, c) <= (parent.expiresAt.value / 1000) as real))
            && (r.Ok? ==> IsChild(parentId, parent, req, nowMs, c, r.value))
  {
    CoversIsSubset(ModelsAsked(req), parent.models);
  }

  // ---------------------------------------------------------------------------
  // Lineage and attenuation
  // ---------------------------------------------------------------------------

  ghost predicate NotLater(child: Option<int>, parent: Option<int>) {
    parent.Some? ==> child.Some? && child.value <= parent.value
  }

  /** What a derived key keeps of its parent. */
  ghost predicate Attenuates(child: Key, parentId: KeyId, parent: Key) {
    && child.keyType == Derived && child.keyHash.None? && child.parent == Some(parentId) && child.root == Some(parentId)
    && parent.keyType == Top && child.team == parent.team
    && NotLater(child.expiresAt, parent.expiresAt)
    && forall slug :: slug != ALL && Grants(child.models, slug) ==> Grants(parent.models, slug)
  }

  ghost predicate KeyOk(keys: map<KeyId, Key>, id: KeyId)
    requires id in keys
  {
    var k := keys[id];
    if k.keyType == Top then k.keyHash.Some? && k.parent.None? && k.root == Some(id)
    else k.parent.Some? && k.parent.value in keys && Attenuates(k, k.parent.value, keys[k.parent.value])
  }

  ghost predicate KeysOk(keys: map<KeyId, Key>) {
    && (forall id :: id in keys ==> KeyOk(keys, id))
    && (forall a, b :: a in keys && b in keys && keys[a].keyHash.Some? && keys[a].keyHash == keys[b].keyHash ==> a == b)
  }

  /** Only status and budget ever change. */
  ghost predicate SameButStatus(a: Key, b: Key) {
    a.(status := Active, budget := None) == b.(status := Active, budget := None)
  }

  /** A derive handler's parent read, some time before its insert. */
  datatype ParentRead = ParentRead(id: KeyId, row: Key)

  datatype State = State(db: Db, parents: seq<ParentRead>)

  datatype Action =
    | Write(op: Op)
    | Mint(id: KeyId, form: MintRequest, teams: set<string>, hash: string)
    | ReadParent(id: KeyId)
    | Derive(read: nat, id: KeyId, req: DeriveRequest, nowMs: nat)

  /** Ingest, budget edits and revokes; mints; and derives in two steps, the parent read and the
      later insert, between which anything may happen. */
  ghost predicate Does(s: State, t: State, a: Action, c: Config) {
    match a
    case Write(op) =>
      !op.NewKey? && Enabled(s.db, op) && t == s.(db := Apply(s.db, op))
    case Mint(id, req, teams, hash) =>
      && (forall k :: k in s.db.keys ==> s.db.keys[k].keyHash != Some(hash))
      && CheckMint(req, teams, hash, id).Ok?
      && var op := NewKey(id, CheckMint(req, teams, hash, id).value);
      && Enabled(s.db, op) && t == s.(db := Apply(s.db, op))
    case ReadParent(id) =>
      id in s.db.keys && s.db.keys[id].keyType == Top && t == s.(parents := s.parents + [ParentRead(id, s.db.keys[id])])
    case Derive(r, id, req, nowMs) =>
      && r < |s.parents| && CheckDerive(s.parents[r].id, s.parents[r].row, req, nowMs, c).Ok?
      && var op := NewKey(id, CheckDerive(s.parents[r].id, s.parents[r].row, req, nowMs, c).value);
      && Enabled(s.db, op) && t == s.(db := Apply(s.db, op))
  }

  ghost predicate Step(s: State, t: State, c: Config) {
    exists a :: Does(s, t, a, c)
  }

  ghost predicate IsRun(run: seq<State>, c: Config) {
    && run != [] && run[0] == State(EMPTY, [])
    && forall i, j :: 0 <= i && j == i + 1 < |run| ==> Step(run[i], run[j], c)
  }

  ghost predicate Inv(s: State) {
    && KeysOk(s.db.keys)
    && forall r :: 0 <= r < |s.parents| ==>
         s.parents[r].id in s.db.keys && SameButStatus(s.parents[r].row, s.db.keys[s.parents[r].id])
         && s.parents[r].row.keyType == Top
  }

  lemma WritesKeepKeys(db: Db, op: Op)
    requires Enabled(db, op) && !op.NewKey?
    ensures var t := Apply(db, op);
            && t.keys.Keys == db.keys.Keys
            && forall k :: k in db.keys ==> SameButStatus(db.keys[k], t.keys[k])
  {
  }

  lemma SameKeysOk(keys: map<KeyId, Key>, keys2: map<KeyId, Key>)
    requires KeysOk(keys) && keys.Keys == keys2.Keys && forall k :: k in keys ==> SameButStatus(keys[k], keys2[k])
    ensures KeysOk(keys2)
  {
  }

  lemma AddedKeyOk(keys: map<KeyId, Key>, id: KeyId, key: Key)
    requires KeysOk(keys) && id !in keys && KeyOk(keys[id := key], id)
    requires key.keyHash.Some? ==> forall k :: k in keys ==> keys[k].keyHash != key.keyHash
    ensures KeysOk(keys[id := key])
  {
  }

  lemma DeriveAttenuates(keys: map<KeyId, Key>, read: ParentRead, req: DeriveRequest, nowMs: nat, c: Config)
    requires KeysOk(keys) && read.id in keys && SameButStatus(read.row, keys[read.id]) && read.row.keyType == Top
    requires CheckDerive(read.id, read.row, req, nowMs, c).Ok?
    ensures Attenuates(CheckDerive(read.id, read.row, req, nowMs, c).value, read.id, keys[read.id])
  {
  }

  lemma StepKeepsInv(s: State, t: State, a: Action, c: Config)
    requires Inv(s) && Does(s, t, a, c)
    ensures Inv(t)
  {
    match a
    case Write(op) => WriteKeepsInv(s, t, op);
    case Mint(id, req, teams, hash) =>
      AddedKeyOk(s.db.keys, id, CheckMint(req, teams, hash, id).value);
    case ReadParent(id) =>
    case Derive(r, id, req, nowMs) =>
      DeriveKeepsInv(s, t, r, id, req, nowMs, c);
  }

  lemma WriteKeepsInv(s: State, t: State, op: Op)
    requires Inv(s) && !op.NewKey? && Enabled(s.db, op) && t == s.(db := Apply(s.db, op))
    ensures Inv(t)
  {
    WritesKeepKeys(s.db, op);
    SameKeysOk(s.db.keys, t.db.keys);
  }

  lemma DeriveKeepsInv(s: State, t: State, r: nat, id: KeyId, req: DeriveRequest, nowMs: nat, c: Config)
    requires Inv(s) && Does(s, t, Derive(r, id, req, nowMs), c)
    ensures Inv(t)
  {
    DeriveAttenuates(s.db.keys, s.parents[r], req, nowMs, c);
    AddedKeyOk(s.db.keys, id, CheckDerive(s.parents[r].id, s.parents[r].row, req, nowMs, c).value);
  }

  lemma {:induction false} RunInv(run: seq<State>, c: Config, i: nat)
    requires IsRun(run, c) && i < |run|
    ensures Inv(run[i])
  {
    if i > 0 {
      RunInv(run, c, i - 1);
      assert Step(run[i - 1], run[i], c);
      var a :| Does(run[i - 1], run[i], a, c);
      StepKeepsInv(run[i - 1], run[i], a, c);
    }
  }

  /** In every reachable state each derived key has a top-level key as parent and root, its team,
      an expiry no later, and only models it grants, although the parent was read before the
      insert's transaction; and no two keys share a credential hash. */
  lemma AttenuationHolds(run: seq<State>, c: Config, i: nat, id: KeyId)
    requires IsRun(run, c) && i < |run| && id in run[i].db.keys && run[i].db.keys[id].keyType == Derived
    ensures var keys := run[i].db.keys;
            && KeysOk(keys)
            && keys[id].parent.Some? && keys[id].parent.value in keys
            && Attenuates(keys[id], keys[id].parent.value, keys[keys[id].parent.value])
  {
    RunInv(run, c, i);
    assert KeyOk(run[i].db.keys, id);
  }

  /** A row stays, keeps everything but its status and budget, and once revoked stays revoked. */
  ghost predicate Outlasts(keys: map<KeyId, Key>, later: map<KeyId, Key>, k: KeyId) {
    k in keys ==>
      k in later && SameButStatus(keys[k], later[k]) && (keys[k].status == Revoked ==> later[k].status == Revoked)
  }

  lemma StepOutlasts(s: State, t: State, a: Action, c: Config, k: KeyId)
    requires Does(s, t, a, c)
    ensures Outlasts(s.db.keys, t.db.keys, k)
  {
  }

  lemma NextOutlasts(run: seq<State>, c: Config, i: nat, k: KeyId)
    requires IsRun(run, c) && i + 1 < |run|
    ensures Outlasts(run[i].db.keys, run[i + 1].db.keys, k)
  {
    assert Step(run[i], run[i + 1], c);
    var a :| Does(run[i], run[i + 1], a, c);
    StepOutlasts(run[i], run[i + 1], a, c, k);
  }

  lemma {:induction false} OutlastsAll(tables: seq<map<KeyId, Key>>, i: nat, j: nat, k: KeyId)
    requires i <= j < |tables|
    requires forall n, m :: 0 <= n < |tables| && m == n + 1 < |tables| ==> Outlasts(tables[n], tables[m], k)
    ensures Outlasts(tables[i], tables[j], k)
    decreases j
  {
    if i < j {
      OutlastsAll(tables, i, j - 1, k);
      assert Outlasts(tables[j - 1], tables[j], k);
    }
  }

  /** A row only ever changes status and budget over a run, and revocation is final. */
  lemma RowOutlasts(run: seq<State>, c: Config, i: nat, j: nat, k: KeyId)
    requires IsRun(run, c) && i <= j < |run|
    ensures Outlasts(run[i].db.keys, run[j].db.keys, k)
  {
    var tables := seq(|run|, n requires 0 <= n < |run| => run[n].db.keys);
    forall n, m | 0 <= n < |tables| && m == n + 1 < |tables|
      ensures Outlasts(tables[n], tables[m], k)
    {
      NextOutlasts(run, c, n, k);
    }
    OutlastsAll(tables, i, j, k);
  }

  /** Revoking a key revokes it and every key rooted at it, and touches nothing else. */
  lemma RevokeIsExact(db: Db, id: KeyId, k: KeyId)
    requires KeysOk(db.keys) && id in db.keys && k in db.keys
    ensures var t := RevokeTree(db, id);
            && (t.keys[k].status == Revoked <==>
                  db.keys[k].status == Revoked || k == id || db.keys[k].parent == Some(id))
            && (t.keys[k] != db.keys[k] ==> k == id || db.keys[k].parent == Some(id))
            && t.log == db.log && t.spend == db.spend
  {
  }

  // ---------------------------------------------------------------------------
  // Exactly when a revoked root leaves no live child
  // ---------------------------------------------------------------------------

  /** A run with the action of each of its steps. */
  ghost predicate Follows(run: seq<State>, acts: seq<Action>, c: Config) {
    && |run| == |acts| + 1 && run[0] == State(EMPTY, [])
    && forall i, j :: 0 <= i < |acts| && j == i + 1 ==> Does(run[i], run[j], acts[i], c)
  }

  lemma FollowsIsRun(run: seq<State>, acts: seq<Action>, c: Config)
    requires Follows(run, acts, c)
    ensures IsRun(run, c)
  {
    forall i | 0 <= i < |run| - 1
      ensures Step(run[i], run[i + 1], c)
    {
      assert Does(run[i], run[i + 1], acts[i], c);
    }
  }

  /** Every key rooted at a revoked key is revoked. */
  ghost predicate CascadeOk(keys: map<KeyId, Key>) {
    forall k, r :: k in keys && r in keys && keys[k].root == Some(r) && keys[r].status == Revoked
      ==> keys[k].status == Revoked
  }

  /** An insert under a parent that is revoked by then. */
  predicate InsertsLate(s: State, a: Action) {
    && a.Derive? && a.read < |s.parents| && s.parents[a.read].id in s.db.keys
    && s.db.keys[s.parents[a.read].id].status == Revoked
  }

  lemma RevokeKeepsCascade(db: Db, id: KeyId)
    requires KeysOk(db.keys) && CascadeOk(db.keys)
    ensures CascadeOk(RevokeTree(db, id).keys)
  {
    var t := RevokeTree(db, id).keys;
    forall k, r | k in t && r in t && t[k].root == Some(r) && t[r].status == Revoked
      ensures t[k].status == Revoked
    {
      assert KeyOk(db.keys, k) && KeyOk(db.keys, r);
    }
  }

  /** A write that revokes nothing. */
  lemma SameRevokedKeepsCascade(keys: map<KeyId, Key>, later: map<KeyId, Key>)
    requires CascadeOk(keys) && later.Keys == keys.Keys
    requires forall k :: k in keys ==> SameButStatus(keys[k], later[k])
    requires forall k :: k in keys ==> (keys[k].status == Revoked <==> later[k].status == Revoked)
    ensures CascadeOk(later)
  {
  }

  lemma WritesKeepCascade(db: Db, op: Op)
    requires KeysOk(db.keys) && CascadeOk(db.keys) && Enabled(db, op) && !op.NewKey?
    ensures CascadeOk(Apply(db, op).keys)
  {
    if op.Revoke? {
      RevokeKeepsCascade(db, op.id);
    } else {
      WritesKeepKeys(db, op);
      SameRevokedKeepsCascade(db.keys, Apply(db, op).keys);
    }
  }

  lemma AddedKeyCascades(keys: map<KeyId, Key>, id: KeyId, key: Key)
    requires KeysOk(keys) && CascadeOk(keys) && id !in keys && key.status == Active && key.root.Some?
    requires key.root.value in keys || key.root.value == id
    ensures CascadeOk(keys[id := key]) <==> !(key.root.value in keys && keys[key.root.value].status == Revoked)
  {
    var t := keys[id := key];
    forall k | k in keys
      ensures keys[k].root != Some(id)
    {
      assert KeyOk(keys, k);
    }
    if key.root.value in keys && keys[key.root.value].status == Revoked {
      assert t[id].root == Some(key.root.value) && t[key.root.value].status == Revoked && t[id].status != Revoked;
    }
  }

  lemma StepKeepsCascade(s: State, t: State, a: Action, c: Config)
    requires Inv(s) && CascadeOk(s.db.keys) && Does(s, t, a, c)
    ensures CascadeOk(t.db.keys) <==> !InsertsLate(s, a)
  {
    match a
    case Write(op) => WritesKeepCascade(s.db, op);
    case Mint(id, req, teams, hash) => AddedKeyCascades(s.db.keys, id, CheckMint(req, teams, hash, id).value);
    case ReadParent(id) =>
    case Derive(r, id, req, nowMs) =>
      var parent := s.parents[r].id;
      assert KeyOk(s.db.keys, parent);
      AddedKeyCascades(s.db.keys, id, CheckDerive(parent, s.parents[r].row, req, nowMs, c).value);
  }

  lemma {:induction false} CascadeUpTo(run: seq<State>, acts: seq<Action>, c: Config, i: nat)
    requires Follows(run, acts, c) && i < |run|
    requires forall n :: 0 <= n < i ==> !InsertsLate(run[n], acts[n])
    ensures CascadeOk(run[i].db.keys)
  {
    if i > 0 {
      CascadeUpTo(run, acts, c, i - 1);
      FollowsIsRun(run, acts, c);
      RunInv(run, c, i - 1);
      StepKeepsCascade(run[i - 1], run[i], acts[i - 1], c);
    }
  }

  /** A revoked root has no live child in any state of a run if and only if no derive of the run
      inserts under a parent that is revoked by then, having read it before. */
  lemma CascadeHoldsIff(run: seq<State>, acts: seq<Action>, c: Config)
    requires Follows(run, acts, c)
    ensures (forall i :: 0 <= i < |run| ==> CascadeOk(run[i].db.keys)) <==>
              forall i :: 0 <= i < |acts| ==> !InsertsLate(run[i], acts[i])
  {
    if forall i :: 0 <= i < |acts| ==> !InsertsLate(run[i], acts[i]) {
      forall i | 0 <= i < |run|
        ensures CascadeOk(run[i].db.keys)
      {
        CascadeUpTo(run, acts, c, i);
      }
    } else {
      var i :| 0 <= i < |acts| && InsertsLate(run[i], acts[i]);
      if CascadeOk(run[i].db.keys) {
        FollowsIsRun(run, acts, c);
        RunInv(run, c, i);
        StepKeepsCascade(run[i], run[i + 1], acts[i], c);
      }
    }
  }

  // ---------------------------------------------------------------------------
  // A root's spend over runs
  // ---------------------------------------------------------------------------

  /** Rows as `meter` writes them: with the lineage of their key's row. */
  ghost predicate CarriesLineage(keys: map<KeyId, Key>, a: Action) {
    a.Write? && a.op.Ingest? ==>
      forall r :: r in a.op.rows && r.keyId in keys ==>
        r.rootKeyId == keys[r.keyId].root || (keys[r.keyId].parent.None? && r.rootKeyId.None?)
  }

  lemma IngestKeepsLineage(db: Db, rows: seq<UsageRow>, price: UsageRow -> Option<int>)
    requires KeysOk(db.keys) && LineageMatches(db) && CarriesLineage(db.keys, Write(Ingest(rows, price)))
    ensures LineageMatches(IngestPage(db, rows, price))
  {
    var t := IngestPage(db, rows, price);
    NewRowsAreNew(IdsOf(db.log), db.keys, rows, price);
    forall l | l in t.log && l !in db.log
      ensures l.row in rows && l.row.keyId in db.keys && KeyOk(db.keys, l.row.keyId)
    {
    }
  }

  lemma StepKeepsLineage(s: State, t: State, a: Action, c: Config)
    requires Inv(s) && SpendOk(s.db) && LineageMatches(s.db) && Does(s, t, a, c) && CarriesLineage(s.db.keys, a)
    ensures SpendOk(t.db) && LineageMatches(t.db)
  {
    match a
    case Write(op) =>
      ApplyKeepsSpend(s.db, op);
      if op.Ingest? {
        IngestKeepsLineage(s.db, op.rows, op.price);
      } else {
        WritesKeepKeys(s.db, op);
      }
    case Mint(id, req, teams, hash) => ApplyKeepsSpend(s.db, NewKey(id, CheckMint(req, teams, hash, id).value));
    case ReadParent(id) =>
    case Derive(r, id, req, nowMs) =>
      ApplyKeepsSpend(s.db, NewKey(id, CheckDerive(s.parents[r].id, s.parents[r].row, req, nowMs, c).value));
  }

  lemma {:induction false} LineageUpTo(run: seq<State>, acts: seq<Action>, c: Config, i: nat)
    requires Follows(run, acts, c) && i < |run|
    requires forall n :: 0 <= n < |acts| ==> CarriesLineage(run[n].db.keys, acts[n])
    ensures Inv(run[i]) && SpendOk(run[i].db) && LineageMatches(run[i].db)
  {
    FollowsIsRun(run, acts, c);
    RunInv(run, c, i);
    if i > 0 {
      LineageUpTo(run, acts, c, i - 1);
      StepKeepsLineage(run[i - 1], run[i], acts[i - 1], c);
    }
  }

  /** In every state of every run that ingests rows with their keys' lineage, a top-level key's spend
      is what its own requests cost plus the spend of all its derived keys. */
  lemma RootSpendRollsUpOverRuns(run: seq<State>, acts: seq<Action>, c: Config, i: nat, root: KeyId, cs: seq<KeyId>)
    requires Follows(run, acts, c) && i < |run|
    requires forall n :: 0 <= n < |acts| ==> CarriesLineage(run[n].db.keys, acts[n])
    requires root in run[i].db.keys && run[i].db.keys[root].keyType == Top && Children(run[i].db.keys, root, cs)
    ensures var db := run[i].db;
            SpentOn(db.spend, root).spent == OwnTotal(db.log, root) + SumSpent(db.spend, cs)
  {
    LineageUpTo(run, acts, c, i);
    var keys := run[i].db.keys;
    assert KeyOk(keys, root);
    forall p, k | p in cs && k in keys
      ensures keys[k].parent != Some(p)
    {
      assert KeyOk(keys, p) && KeyOk(keys, k);
    }
    RootSpendRollsUp(run[i].db, root, cs);
  }

  lemma LateChildRow(p: Key, req: DeriveRequest, c: Config) returns (child: Key)
    requires c.maxTtl >= 1 && p.status == Active && p.parent.None? && p.root == Some("p") && p.expiresAt.None?
    requires p.models == [ALL] && req == DeriveRequest("", Omitted, Given(1.0), None)
    ensures CheckDerive("p", p, req, 0, c) == Ok(child)
    ensures child.status == Active && child.root == Some("p") && child.keyHash.None?
  {
    assert ModelsSubset([ALL], p.models);
    child := CheckDerive("p", p, req, 0, c).value;
  }

  lemma Extend(run: seq<State>, t: State, a: Action, c: Config) returns (r: seq<State>)
    requires IsRun(run, c) && Does(run[|run| - 1], t, a, c)
    ensures IsRun(r, c) && r[|r| - 1] == t
  {
    r := run + [t];
    assert Step(run[|run| - 1], t, c);
  }

  lemma ParentReadThenRevoked(p: Key, mint: MintRequest, c: Config) returns (run: seq<State>)
    requires CheckMint(mint, {"t"}, "h", "p") == Ok(p)
    ensures IsRun(run, c)
    ensures run[|run| - 1] == State(RevokeTree(AddKey(EMPTY, "p", p), "p"), [ParentRead("p", p)])
  {
    var s1 := State(AddKey(EMPTY, "p", p), []);
    run := Extend([State(EMPTY, [])], s1, Mint("p", mint, {"t"}, "h"), c);
    run := Extend(run, s1.(parents := [ParentRead("p", p)]), ReadParent("p"), c);
    run := Extend(run, State(RevokeTree(s1.db, "p"), [ParentRead("p", p)]), Write(Revoke("p")), c);
  }

  /** A child can appear under a parent revoked in between: the row check alone does not stop it,
      which is why admission looks at the root as well. */
  lemma LateChildIsPossible(c: Config) returns (run: seq<State>)
    requires c.maxTtl >= 1
    ensures IsRun(run, c)
    ensures var keys := run[|run| - 1].db.keys;
            && "p" in keys && "c" in keys && keys["c"].root == Some("p")
            && keys["p"].status == Revoked && keys["c"].status == Active
  {
    var mint := MintRequest("t", "n", Omitted, None, None);
    var req := DeriveRequest("", Omitted, Given(1.0), None);
    var p := CheckMint(mint, {"t"}, "h", "p").value;
    run := ParentReadThenRevoked(p, mint, c);
    var child := LateChildRow(p, req, c);
    var s := run[|run| - 1];
    assert "c" !in s.db.keys;
    run := Extend(run, s.(db := AddKey(s.db, "c", child)), Derive(0, "c", req, 0), c);
  }
}
