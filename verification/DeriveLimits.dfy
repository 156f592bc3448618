/** The two derive limits under concurrency: the per-minute rate and the cap on active children.
    Each statement of the derive transaction is a step; an advisory lock on the parent is taken
    before the counts and held to the commit. A row's creation time is its transaction's start, so
    it may precede rows committed earlier; clock readings are arbitrary. */
module DeriveLimits {
  import opened Wrappers
  import opened Rows
  import opened Gateway

  const WINDOW := 60000

  datatype Limits = Limits(rate: nat, cap: nat)

  datatype Child = Child(parent: KeyId, createdAt: int, expiresAt: Option<int>, status: Status)

  datatype Phase = Begun | Locked | RateOk | CapOk | Inserted

  /** `counted` is what the cap check counted; `gained` and `lost` how many of the parent's unexpired
      children became active, and stopped being it, since. */
  datatype Tx = Tx(parent: KeyId, start: int, expiresAt: Option<int>, phase: Phase, counted: nat, gained: nat,
                   lost: nat) {
    predicate HoldsLock() {
      phase != Begun
    }

    predicate Counted() {
      phase == CapOk || phase == Inserted
    }
  }

  /** Committed children in commit order, and the open derive transactions. */
  datatype State = State(children: seq<Child>, txs: map<nat, Tx>)

  function CountIf(cs: seq<Child>, p: Child -> bool): nat {
    if cs == [] then 0 else CountIf(cs[..|cs| - 1], p) + if p(cs[|cs| - 1]) then 1 else 0
  }

  function IsRecent(parent: KeyId, start: int): Child -> bool {
    (c: Child) => c.parent == parent && c.createdAt > start - WINDOW
  }

  /** Active and unexpired, as seen by a transaction that started at `start`. */
  function IsActive(parent: KeyId, start: int): Child -> bool {
    (c: Child) => c.parent == parent && c.status == Active && (c.expiresAt.None? || c.expiresAt.value > start)
  }

  function InWindow(parent: KeyId, w: int): Child -> bool {
    (c: Child) => c.parent == parent && w < c.createdAt <= w + 60000
  }

  // ---------------------------------------------------------------------------
  // Steps
  // ---------------------------------------------------------------------------

  datatype Action =
    | Begin(id: nat, parent: KeyId, start: int, expiresAt: Option<int>)
    | Lock(id: nat)
    | CheckRate(id: nat)
    | CheckCap(id: nat)
    | Insert(id: nat)
    | Commit(id: nat)
    | End(id: nat)
    | SetStatus(i: nat, status: Status)

  /** What a child's change of status is to a transaction past its cap check. */
  function Witness(tx: Tx, was: Child, now: Child): Tx {
    if !tx.Counted() then tx
    else if !IsActive(tx.parent, tx.start)(was) && IsActive(tx.parent, tx.start)(now) then tx.(gained := tx.gained + 1)
    else if IsActive(tx.parent, tx.start)(was) && !IsActive(tx.parent, tx.start)(now) then tx.(lost := tx.lost + 1)
    else tx
  }

  /** A refused or failed transaction ends without a row (`End`). Statuses change under revokes,
      ingest and budget raises; only over_budget goes back to active. */
  ghost predicate Does(s: State, t: State, a: Action, l: Limits) {
    match a
    case Begin(id, parent, start, expiresAt) =>
      id !in s.txs && t == s.(txs := s.txs[id := Tx(parent, start, expiresAt, Begun, 0, 0, 0)])
    case Lock(id) =>
      && id in s.txs && s.txs[id].phase == Begun
      && (forall o :: o in s.txs && s.txs[o].parent == s.txs[id].parent ==> !s.txs[o].HoldsLock())
      && t == s.(txs := s.txs[id := s.txs[id].(phase := Locked)])
    case CheckRate(id) =>
      && id in s.txs && s.txs[id].phase == Locked
      && CountIf(s.children, IsRecent(s.txs[id].parent, s.txs[id].start)) < l.rate
      && t == s.(txs := s.txs[id := s.txs[id].(phase := RateOk)])
    case CheckCap(id) =>
      && id in s.txs && s.txs[id].phase == RateOk
      && var active := CountIf(s.children, IsActive(s.txs[id].parent, s.txs[id].start));
      && active < l.cap
      && t == s.(txs := s.txs[id := s.txs[id].(phase := CapOk, counted := active, gained := 0, lost := 0)])
    case Insert(id) =>
      && id in s.txs && s.txs[id].phase == CapOk
      && t == s.(txs := s.txs[id := s.txs[id].(phase := Inserted)])
    case Commit(id) =>
      && id in s.txs && s.txs[id].phase == Inserted
      && var tx := s.txs[id];
      && t == State(s.children + [Child(tx.parent, tx.start, tx.expiresAt, Active)], s.txs - {id})
    case End(id) =>
      id in s.txs && t == s.(txs := s.txs - {id})
    case SetStatus(i, status) =>
      && i < |s.children| && s.children[i].status != Revoked && s.children[i].status != status
      && var now := s.children[i].(status := status);
      && t == State(s.children[i := now], map id | id in s.txs :: Witness(s.txs[id], s.children[i], now))
  }

  ghost predicate Step(s: State, t: State, l: Limits) {
    exists a :: Does(s, t, a, l)
  }

  ghost predicate IsRun(run: seq<State>, l: Limits) {
    && run != [] && run[0] == State([], map[])
    && forall i, j :: 0 <= i && j == i + 1 < |run| ==> Step(run[i], run[j], l)
  }

  // ---------------------------------------------------------------------------
  // Invariant
  // ---------------------------------------------------------------------------

  ghost predicate OneHolder(txs: map<nat, Tx>) {
    forall a, b :: a in txs && b in txs && a != b && txs[a].HoldsLock() && txs[b].HoldsLock()
      ==> txs[a].parent != txs[b].parent
  }

  ghost predicate TxOk(children: seq<Child>, tx: Tx, l: Limits) {
    && (tx.phase == RateOk || tx.Counted() ==> CountIf(children, IsRecent(tx.parent, tx.start)) < l.rate)
    && (tx.Counted() ==>
          && tx.counted < l.cap
          && CountIf(children, IsActive(tx.parent, tx.start)) == tx.counted + tx.gained - tx.lost)
  }

  ghost predicate TxsOk(children: seq<Child>, txs: map<nat, Tx>, l: Limits) {
    forall id {:trigger TxOk(children, txs[id], l)} :: id in txs ==> TxOk(children, txs[id], l)
  }

  /** Every committed child found the rate free among the children committed before it. */
  ghost predicate RateHistory(children: seq<Child>, l: Limits) {
    forall i :: 0 <= i < |children| ==>
      CountIf(children[..i], IsRecent(children[i].parent, children[i].createdAt)) < l.rate
  }

  ghost predicate Inv(s: State, l: Limits) {
    && OneHolder(s.txs) && TxsOk(s.children, s.txs, l) && RateHistory(s.children, l)
  }

  lemma CountOfSnoc(cs: seq<Child>, c: Child, p: Child -> bool)
    ensures CountIf(cs + [c], p) == CountIf(cs, p) + if p(c) then 1 else 0
  {
  }

  lemma {:induction false} CountOfUpdate(cs: seq<Child>, i: nat, c: Child, p: Child -> bool)
    requires i < |cs|
    ensures CountIf(cs[i := c], p) + (if p(cs[i]) then 1 else 0) == CountIf(cs, p) + (if p(c) then 1 else 0)
  {
    var n := |cs| - 1;
    if i < n {
      assert cs[i := c][..n] == cs[..n][i := c];
      CountOfUpdate(cs[..n], i, c, p);
    } else {
      assert cs[i := c][..n] == cs[..n];
    }
  }

  lemma StatusKeepsTx(s: State, t: State, l: Limits, i: nat, status: Status, id: nat)
    requires Inv(s, l) && Does(s, t, SetStatus(i, status), l) && id in s.txs
    ensures TxOk(t.children, t.txs[id], l)
  {
    var tx, c := s.txs[id], s.children[i].(status := status);
    assert TxOk(s.children, tx, l);
    CountOfUpdate(s.children, i, c, IsRecent(tx.parent, tx.start));
    CountOfUpdate(s.children, i, c, IsActive(tx.parent, tx.start));
  }

  lemma StatusKeepsHistory(children: seq<Child>, l: Limits, i: nat, status: Status)
    requires RateHistory(children, l) && i < |children|
    ensures RateHistory(children[i := children[i].(status := status)], l)
  {
    var c := children[i].(status := status);
    var after := children[i := c];
    forall k | 0 <= k < |after|
      ensures CountIf(after[..k], IsRecent(after[k].parent, after[k].createdAt)) < l.rate
    {
      var p := IsRecent(children[k].parent, children[k].createdAt);
      assert CountIf(children[..k], p) < l.rate;
      if i < k {
        assert after[..k] == children[..k][i := c];
        CountOfUpdate(children[..k], i, c, p);
      } else {
        assert after[..k] == children[..k];
      }
    }
  }

  lemma SameHolders(txs: map<nat, Tx>, txs2: map<nat, Tx>)
    requires OneHolder(txs) && txs2.Keys == txs.Keys
    requires forall id :: id in txs ==> txs2[id].parent == txs[id].parent && txs2[id].phase == txs[id].phase
    ensures OneHolder(txs2)
  {
  }

  lemma StatusKeepsInv(s: State, t: State, l: Limits, i: nat, status: Status)
    requires Inv(s, l) && Does(s, t, SetStatus(i, status), l)
    ensures Inv(t, l)
  {
    forall id | id in t.txs
      ensures TxOk(t.children, t.txs[id], l)
    {
      StatusKeepsTx(s, t, l, i, status, id);
    }
    StatusKeepsHistory(s.children, l, i, status);
    SameHolders(s.txs, t.txs);
  }

  /** A step of one transaction: it holds a lock nobody else has, and its facts hold. */
  lemma OneTxKeepsInv(s: State, l: Limits, id: nat, tx: Tx)
    requires Inv(s, l) && TxOk(s.children, tx, l)
    requires tx.HoldsLock() ==>
               forall o :: o in s.txs && o != id && s.txs[o].HoldsLock() ==> s.txs[o].parent != tx.parent
    ensures Inv(s.(txs := s.txs[id := tx]), l)
  {
    var txs := s.txs[id := tx];
    forall o | o in txs
      ensures TxOk(s.children, txs[o], l)
    {
      assert o != id ==> TxOk(s.children, s.txs[o], l);
    }
  }

  lemma PhaseKeepsInv(s: State, l: Limits, id: nat, tx: Tx)
    requires Inv(s, l) && id in s.txs && tx.parent == s.txs[id].parent
    requires TxOk(s.children, s.txs[id], l) ==> TxOk(s.children, tx, l)
    requires s.txs[id].HoldsLock() || forall o :: o in s.txs && s.txs[o].parent == tx.parent ==> !s.txs[o].HoldsLock()
    ensures Inv(s.(txs := s.txs[id := tx]), l)
  {
    assert TxOk(s.children, s.txs[id], l);
    OneTxKeepsInv(s, l, id, tx);
  }

  lemma EndKeepsInv(s: State, l: Limits, id: nat)
    requires Inv(s, l) && id in s.txs
    ensures Inv(s.(txs := s.txs - {id}), l)
  {
    forall o | o in s.txs - {id}
      ensures TxOk(s.children, (s.txs - {id})[o], l)
    {
      assert TxOk(s.children, s.txs[o], l);
    }
  }

  /** A child of another parent, or one committed before a transaction has the lock, is nothing to it. */
  lemma OthersKeepTx(children: seq<Child>, tx: Tx, l: Limits, c: Child)
    requires TxOk(children, tx, l) && (tx.HoldsLock() ==> c.parent != tx.parent)
    ensures TxOk(children + [c], tx, l)
  {
    CountOfSnoc(children, c, IsRecent(tx.parent, tx.start));
    CountOfSnoc(children, c, IsActive(tx.parent, tx.start));
  }

  lemma CommitKeepsHistory(children: seq<Child>, l: Limits, c: Child)
    requires RateHistory(children, l) && CountIf(children, IsRecent(c.parent, c.createdAt)) < l.rate
    ensures RateHistory(children + [c], l)
  {
    var after := children + [c];
    forall k | 0 <= k < |after|
      ensures CountIf(after[..k], IsRecent(after[k].parent, after[k].createdAt)) < l.rate
    {
      assert after[..k] == if k < |children| then children[..k] else children;
    }
  }

  lemma CommitKeepsInv(s: State, t: State, l: Limits, id: nat)
    requires Inv(s, l) && Does(s, t, Commit(id), l)
    ensures Inv(t, l)
  {
    var tx := s.txs[id];
    assert TxOk(s.children, tx, l);
    CommitKeepsHistory(s.children, l, Child(tx.parent, tx.start, tx.expiresAt, Active));
    forall o | o in t.txs
      ensures TxOk(t.children, t.txs[o], l)
    {
      assert TxOk(s.children, s.txs[o], l);
      OthersKeepTx(s.children, s.txs[o], l, Child(tx.parent, tx.start, tx.expiresAt, Active));
    }
  }

  lemma StepKeepsInv(s: State, t: State, l: Limits, a: Action)
    requires Inv(s, l) && Does(s, t, a, l)
    ensures Inv(t, l)
  {
    match a
    case Commit(id) => CommitKeepsInv(s, t, l, id);
    case SetStatus(i, status) => StatusKeepsInv(s, t, l, i, status);
    case End(id) => EndKeepsInv(s, l, id);
    case Begin(id, _, _, _) => OneTxKeepsInv(s, l, id, t.txs[id]);
    case Lock(id) => PhaseKeepsInv(s, l, id, t.txs[id]);
    case CheckRate(id) => PhaseKeepsInv(s, l, id, t.txs[id]);
    case CheckCap(id) => PhaseKeepsInv(s, l, id, t.txs[id]);
    case Insert(id) => PhaseKeepsInv(s, l, id, t.txs[id]);
  }

  lemma {:induction false} RunInv(run: seq<State>, l: Limits, i: nat)
    requires IsRun(run, l) && i < |run|
    ensures Inv(run[i], l)
  {
    if i > 0 {
      RunInv(run, l, i - 1);
      assert Step(run[i - 1], run[i], l);
      var a :| Does(run[i - 1], run[i], a, l);
      StepKeepsInv(run[i - 1], run[i], l, a);
    }
  }

  // ---------------------------------------------------------------------------
  // Main results
  // ---------------------------------------------------------------------------

  lemma {:induction false} WindowIsRecent(cs: seq<Child>, parent: KeyId, w: int, start: int)
    requires start <= w + WINDOW
    ensures CountIf(cs, InWindow(parent, w)) <= CountIf(cs, IsRecent(parent, start))
  {
    if cs != [] {
      WindowIsRecent(cs[..|cs| - 1], parent, w, start);
    }
  }

  lemma {:induction false} HistoryBoundsWindow(cs: seq<Child>, l: Limits, parent: KeyId, w: int)
    requires RateHistory(cs, l)
    ensures CountIf(cs, InWindow(parent, w)) <= l.rate
  {
    if cs != [] {
      var n := |cs| - 1;
      var front, last := cs[..n], cs[n];
      forall i | 0 <= i < n
        ensures CountIf(front[..i], IsRecent(front[i].parent, front[i].createdAt)) < l.rate
      {
        assert front[..i] == cs[..i];
      }
      HistoryBoundsWindow(front, l, parent, w);
      if InWindow(parent, w)(last) {
        WindowIsRecent(front, parent, w, last.createdAt);
        assert CountIf(cs[..n], IsRecent(cs[n].parent, cs[n].createdAt)) < l.rate;
      }
    }
  }

  /** The rate limit holds over every run: any half-open minute of creation times holds at most
      `rate` children of a parent, whatever their status now. */
  lemma RateHolds(run: seq<State>, l: Limits, i: nat, parent: KeyId, w: int)
    requires IsRun(run, l) && i < |run|
    ensures CountIf(run[i].children, InWindow(parent, w)) <= l.rate
  {
    RunInv(run, l, i);
    HistoryBoundsWindow(run[i].children, l, parent, w);
  }

  /** The new child has expired by its own transaction's start. */
  predicate Expired(tx: Tx) {
    tx.expiresAt.Some? && tx.expiresAt.value <= tx.start
  }

  /** At each commit the active unexpired children, the new one included, are at most the cap if and
      only if the children counted, those that became active since the count and less those that
      stopped, leave room; so always when none became active. A new child that had expired when its
      transaction started takes no room. */
  lemma CapHoldsAtCommit(run: seq<State>, l: Limits, i: nat, id: nat)
    requires IsRun(run, l) && i < |run| - 1 && Does(run[i], run[i + 1], Commit(id), l)
    ensures var tx := run[i].txs[id];
            var active := CountIf(run[i + 1].children, IsActive(tx.parent, tx.start));
            var others := tx.counted + tx.gained - tx.lost;
            && (active <= l.cap <==> others < l.cap || (others == l.cap && Expired(tx)))
            && (tx.gained <= tx.lost ==> active <= l.cap)
            && active <= l.cap + tx.gained
  {
    RunInv(run, l, i);
    var tx := run[i].txs[id];
    assert TxOk(run[i].children, tx, l);
    CountOfSnoc(run[i].children, Child(tx.parent, tx.start, tx.expiresAt, Active), IsActive(tx.parent, tx.start));
  }

  lemma Extend(run: seq<State>, t: State, a: Action, l: Limits) returns (r: seq<State>)
    requires IsRun(run, l) && Does(run[|run| - 1], t, a, l)
    ensures IsRun(r, l) && r[|r| - 1] == t
  {
    r := run + [t];
    assert Step(run[|run| - 1], t, l);
  }

  const P := "p"

  const ACTIVE := Child(P, 0, Some(10), Active)

  const OVER := Child(P, 0, Some(10), OverBudget)

  function Repeat(c: Child, n: nat): seq<Child> {
    seq(n, _ => c)
  }

  lemma {:induction false} CountOfRepeat(c: Child, n: nat, p: Child -> bool)
    ensures CountIf(Repeat(c, n), p) == if p(c) then n else 0
  {
    if n > 0 {
      assert Repeat(c, n)[..n - 1] == Repeat(c, n - 1);
      CountOfRepeat(c, n - 1, p);
    }
  }

  lemma {:induction false} CountOfConcat(a: seq<Child>, b: seq<Child>, p: Child -> bool)
    ensures CountIf(a + b, p) == CountIf(a, p) + CountIf(b, p)
  {
    if b == [] {
      assert a + b == a;
    } else {
      assert (a + b)[..|a + b| - 1] == a + b[..|b| - 1];
      CountOfConcat(a, b[..|b| - 1], p);
    }
  }

  /** Some children over budget, then some active ones. */
  lemma CountsOf(n: nat, k: nat)
    ensures CountIf(Repeat(OVER, n) + Repeat(ACTIVE, k), IsRecent(P, 0)) == n + k
    ensures CountIf(Repeat(OVER, n) + Repeat(ACTIVE, k), IsActive(P, 0)) == k
  {
    forall p
      ensures CountIf(Repeat(OVER, n) + Repeat(ACTIVE, k), p)
           == (if p(OVER) then n else 0) + (if p(ACTIVE) then k else 0)
    {
      CountOfConcat(Repeat(OVER, n), Repeat(ACTIVE, k), p);
      CountOfRepeat(OVER, n, p);
      CountOfRepeat(ACTIVE, k, p);
    }
  }

  function PastCheck(counted: nat, gained: nat): Tx {
    Tx(P, 0, Some(10), CapOk, counted, gained, 0)
  }

  lemma ReachCapOk(run: seq<State>, l: Limits, active: nat) returns (r: seq<State>)
    requires IsRun(run, l) && run[|run| - 1].txs == map[]
    requires CountIf(run[|run| - 1].children, IsRecent(P, 0)) < l.rate
    requires CountIf(run[|run| - 1].children, IsActive(P, 0)) == active < l.cap
    ensures IsRun(r, l) && r[|r| - 1] == State(run[|run| - 1].children, map[0 := PastCheck(active, 0)])
  {
    var cs, tx := run[|run| - 1].children, Tx(P, 0, Some(10), Begun, 0, 0, 0);
    r := Extend(run, State(cs, map[0 := tx]), Begin(0, P, 0, Some(10)), l);
    r := Extend(r, State(cs, map[0 := tx.(phase := Locked)]), Lock(0), l);
    r := Extend(r, State(cs, map[0 := tx.(phase := RateOk)]), CheckRate(0), l);
    r := Extend(r, State(cs, map[0 := PastCheck(active, 0)]), CheckCap(0), l);
  }

  lemma InsertAndCommit(run: seq<State>, l: Limits, tx: Tx) returns (r: seq<State>)
    requires IsRun(run, l) && run[|run| - 1].txs == map[0 := tx] && tx.phase == CapOk
    ensures IsRun(r, l)
    ensures r[|r| - 1] == State(run[|run| - 1].children + [Child(tx.parent, tx.start, tx.expiresAt, Active)], map[])
  {
    var cs := run[|run| - 1].children;
    r := Extend(run, State(cs, map[0 := tx.(phase := Inserted)]), Insert(0), l);
    assert map[0 := tx.(phase := Inserted)] - {0} == map[];
    r := Extend(r, State(cs + [Child(tx.parent, tx.start, tx.expiresAt, Active)], map[]), Commit(0), l);
  }

  /** A run to `n` children over budget and `k` active ones, when the limits leave room for them. */
  lemma {:induction false} ReachChildren(l: Limits, n: nat, k: nat) returns (r: seq<State>)
    requires n + k <= l.rate && k <= l.cap && 1 <= l.cap
    ensures IsRun(r, l) && r[|r| - 1] == State(Repeat(OVER, n) + Repeat(ACTIVE, k), map[])
    decreases n + k
  {
    if k > 0 {
      r := ReachChildren(l, n, k - 1);
      CountsOf(n, k - 1);
      r := ReachCapOk(r, l, k - 1);
      r := InsertAndCommit(r, l, PastCheck(k - 1, 0));
      assert Repeat(OVER, n) + Repeat(ACTIVE, k - 1) + [ACTIVE] == Repeat(OVER, n) + Repeat(ACTIVE, k);
    } else if n > 0 {
      r := ReachChildren(l, n - 1, 0);
      CountsOf(n - 1, 0);
      r := ReachCapOk(r, l, 0);
      r := InsertAndCommit(r, l, PastCheck(0, 0));
      r := RunOver(r, l, n);
    } else {
      r := [State([], map[])];
      assert Repeat(OVER, 0) + Repeat(ACTIVE, 0) == [];
    }
  }

  lemma RunOver(run: seq<State>, l: Limits, n: nat) returns (r: seq<State>)
    requires n > 0 && IsRun(run, l)
    requires run[|run| - 1] == State(Repeat(OVER, n - 1) + Repeat(ACTIVE, 0) + [ACTIVE], map[])
    ensures IsRun(r, l) && r[|r| - 1] == State(Repeat(OVER, n) + Repeat(ACTIVE, 0), map[])
  {
    var cs := run[|run| - 1].children;
    assert cs[n - 1] == ACTIVE && cs[n - 1 := OVER] == Repeat(OVER, n) + Repeat(ACTIVE, 0);
    r := Extend(run, State(cs[n - 1 := OVER], map[]), SetStatus(n - 1, OverBudget), l);
  }

  /** The first `m` of the children over budget are active again. */
  function Raised(n: nat, k: nat, m: nat): seq<Child>
    requires m <= n
  {
    Repeat(ACTIVE, m) + Repeat(OVER, n - m) + Repeat(ACTIVE, k)
  }

  lemma RaiseOne(run: seq<State>, l: Limits, n: nat, k: nat, m: nat) returns (r: seq<State>)
    requires m < n && IsRun(run, l) && run[|run| - 1] == State(Raised(n, k, m), map[0 := PastCheck(k, m)])
    ensures IsRun(r, l) && r[|r| - 1] == State(Raised(n, k, m + 1), map[0 := PastCheck(k, m + 1)])
  {
    var cs, txs := Raised(n, k, m), run[|run| - 1].txs;
    assert cs[m] == OVER && cs[m := ACTIVE] == Raised(n, k, m + 1);
    assert (map id | id in txs :: Witness(txs[id], OVER, ACTIVE)) == map[0 := PastCheck(k, m + 1)];
    r := Extend(run, State(cs[m := ACTIVE], map[0 := PastCheck(k, m + 1)]), SetStatus(m, Active), l);
  }

  lemma {:induction false} RaiseAll(run: seq<State>, l: Limits, n: nat, k: nat, m: nat) returns (r: seq<State>)
    requires m <= n && IsRun(run, l) && run[|run| - 1] == State(Raised(n, k, m), map[0 := PastCheck(k, m)])
    ensures IsRun(r, l) && r[|r| - 1] == State(Raised(n, k, n), map[0 := PastCheck(k, n)])
    decreases n - m
  {
    r := run;
    if m < n {
      r := RaiseOne(run, l, n, k, m);
      r := RaiseAll(r, l, n, k, m + 1);
    }
  }

  lemma AllActive(n: nat, k: nat)
    ensures CountIf(Raised(n, k, n) + [ACTIVE], IsActive(P, 0)) == n + k + 1
  {
    assert Raised(n, k, n) + [ACTIVE] == Repeat(ACTIVE, n + k + 1);
    CountOfRepeat(ACTIVE, n + k + 1, IsActive(P, 0));
  }

  /** The plain cap is exceeded by any number: for every cap and every `n` there is a run in which
      `n` siblings reactivated between a derive's count and its commit make cap + n active. */
  lemma CapCanBeExceeded(cap: nat, n: nat) returns (run: seq<State>, l: Limits)
    requires cap >= 1
    ensures l.cap == cap && IsRun(run, l)
    ensures CountIf(run[|run| - 1].children, IsActive(P, 0)) == cap + n
  {
    l := Limits(cap + n, cap);
    run := ReachChildren(l, n, cap - 1);
    CountsOf(n, cap - 1);
    run := ReachCapOk(run, l, cap - 1);
    assert Raised(n, cap - 1, 0) == Repeat(OVER, n) + Repeat(ACTIVE, cap - 1);
    run := RaiseAll(run, l, n, cap - 1, 0);
    run := InsertAndCommit(run, l, PastCheck(cap - 1, n));
    AllActive(n, cap - 1);
  }
}
