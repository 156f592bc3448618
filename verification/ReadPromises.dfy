/** Usage reads as their callers see them: what is asked for, what an answer looks like, and what it
    must hold, said on the request and the rows alone. */
module ReadPromises {
  import opened Wrappers
  import opened UsageIds
  import opened Rows

  /** What a key holder may read: a top-level key's whole tree or one derived key. */
  datatype Scope = Tree(root: KeyId) | Single(key: KeyId)

  datatype Query = Query(since: Option<int>, limit: Option<int>, keyId: Option<KeyId>, jti: Option<KeyId>,
                         name: Option<string>, after: Option<string>)

  datatype Totals = Totals(requests: nat, input: nat, output: nat, cacheRead: nat, cacheWrite: nat, costUsd: int)

  datatype UsagePage = UsagePage(rows: seq<UsageRow>, maxId: Option<int>, totals: Totals)

  datatype LocalAnswer = LocalAnswer(rows: seq<UsageRow>, floor: int)

  /** The row is the caller's and passes each filter that was given. */
  ghost predicate Reaches(scope: Scope, q: Query, r: UsageRow) {
    && (match scope case Tree(root) => r.rootKeyId == Some(root) case Single(key) => r.keyId == key)
    && (q.keyId.Some? ==> r.keyId == q.keyId.value)
    && (q.jti.Some? ==> r.keyId == q.jti.value)
    && (q.name.Some? ==> r.name == q.name.value)
    && (q.after.Some? ==> LexLess(q.after.value, Print(r.usageId)))
  }

  /** A missing, zero or negative `since` is 0. */
  ghost function SinceSent(q: Query): nat {
    if q.since.Some? && q.since.value > 0 then q.since.value else 0
  }

  /** A missing or zero `limit` is 5000, the most there is; a negative one is 1. */
  ghost function LimitSent(q: Query): nat {
    if q.limit.None? || q.limit.value == 0 || q.limit.value > 5000 then 5000
    else if q.limit.value < 0 then 1
    else q.limit.value
  }

  /** The bound for `since` has a 48-bit time. */
  ghost predicate SinceFits(since: nat) {
    (since + 1) / PER_MS + EPOCH_MS < MS_LIMIT
  }

  ghost predicate Asked(scope: Scope, q: Query, r: UsageRow) {
    Reaches(scope, q, r) && RowCursor(r) > SinceSent(q)
  }

  ghost predicate Held(rows: seq<UsageRow>, u: UsageId) {
    exists i :: 0 <= i < |rows| && rows[i].usageId == u
  }

  /** The first `limit` of a machine's rows that were asked for, in id order, each with its cursor. */
  ghost predicate IsShare(stored: seq<UsageRow>, scope: Scope, q: Query, rows: seq<UsageRow>) {
    && |rows| <= LimitSent(q)
    && (forall i :: 0 <= i < |rows| ==> FromStore(stored, scope, q, rows[i]))
    && (forall i, j :: 0 <= i < j < |rows| ==> Before(rows[i], rows[j]))
    && (forall r :: r in stored && Asked(scope, q, r) ==>
          r.(id := RowCursor(r)) in rows || (|rows| == LimitSent(q) && Before(rows[|rows| - 1], r)))
  }

  ghost predicate FromStore(stored: seq<UsageRow>, scope: Scope, q: Query, row: UsageRow) {
    exists r :: r in stored && Asked(scope, q, r) && row == r.(id := RowCursor(r))
  }

  /** The first `limit` wanted rows of a table in id order, with the ties of the last, of which there
      are at most 5000. */
  ghost predicate IsPage(table: seq<UsageRow>, wanted: UsageRow -> bool, limit: nat, rows: seq<UsageRow>)
    requires limit >= 1
  {
    && (forall r :: r in rows ==> r in table && wanted(r))
    && (forall i, j :: 0 <= i < j < |rows| ==> Before(rows[i], rows[j]))
    && (forall k :: limit <= k < |rows| ==> RowCursor(rows[k]) == RowCursor(rows[limit - 1]))
    && (forall r :: r in table && wanted(r) ==>
          r in rows || (|rows| >= limit && Before(rows[|rows| - 1], r)
                        && (RowCursor(rows[|rows| - 1]) < RowCursor(r) || |rows| == limit + 5000)))
  }

  lemma SamePage(table: seq<UsageRow>, wanted: UsageRow -> bool, asked: UsageRow -> bool, limit: nat,
                 rows: seq<UsageRow>)
    requires limit >= 1 && IsPage(table, wanted, limit, rows) && forall r :: wanted(r) == asked(r)
    ensures IsPage(table, asked, limit, rows)
  {
  }

  // ---------------------------------------------------------------------------
  // Merged pages
  // ---------------------------------------------------------------------------

  /** Below every answer's floor. */
  ghost predicate Settled(answers: seq<LocalAnswer>, cursor: int) {
    forall i :: 0 <= i < |answers| ==> cursor < answers[i].floor
  }

  ghost predicate Reported(answers: seq<LocalAnswer>, r: UsageRow) {
    exists i :: 0 <= i < |answers| && r in answers[i].rows
  }

  /** The settled rows that were reported, each id once and in order, up to the limit and the ties of
      the row there. */
  ghost predicate IsMerged(answers: seq<LocalAnswer>, limit: nat, rows: seq<UsageRow>)
    requires limit >= 1
  {
    && (forall r :: r in rows ==> Reported(answers, r) && Settled(answers, RowCursor(r)))
    && (forall i, j :: 0 <= i < j < |rows| ==> Before(rows[i], rows[j]))
    && (forall r :: Reported(answers, r) && Settled(answers, RowCursor(r)) ==>
          Held(rows, r.usageId) || (|rows| >= limit && RowCursor(rows[|rows| - 1]) < RowCursor(r)))
    && (forall k :: limit <= k < |rows| ==> RowCursor(rows[k]) == RowCursor(rows[limit - 1]))
  }

  // ---------------------------------------------------------------------------
  // Totals
  // ---------------------------------------------------------------------------

  ghost function SumBy(rows: seq<UsageRow>, f: UsageRow -> int): int {
    if rows == [] then 0 else SumBy(rows[..|rows| - 1], f) + f(rows[|rows| - 1])
  }

  /** Field by field; a row without a cost adds none. */
  ghost predicate TotalsAre(rows: seq<UsageRow>, t: Totals) {
    && t.requests == |rows|
    && t.input == SumBy(rows, (r: UsageRow) => r.inputTokens)
    && t.output == SumBy(rows, (r: UsageRow) => r.outputTokens)
    && t.cacheRead == SumBy(rows, (r: UsageRow) => r.cacheReadTokens)
    && t.cacheWrite == SumBy(rows, (r: UsageRow) => r.cacheWriteTokens)
    && t.costUsd == SumBy(rows, (r: UsageRow) => if r.costUsd.Some? then r.costUsd.value else 0)
  }
}
