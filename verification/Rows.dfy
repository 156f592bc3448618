/** Rows of a machine's usage_log, their order by usage_id, and pages of them. */
module Rows {
  import opened Wrappers
  import opened UsageIds

  type KeyId = string

  /** `id` is SQLite's row number in the table and is rewritten to the cursor in a page.
      Token counts are naturals; `costUsd` is the catalog estimate in micro-dollars. */
  datatype UsageRow = UsageRow(
    id: int, usageId: UsageId, machineId: string, keyId: KeyId, name: string,
    parentKeyId: Option<KeyId>, rootKeyId: Option<KeyId>, model: string,
    inputTokens: nat, outputTokens: nat, cacheReadTokens: nat, cacheWriteTokens: nat,
    costUsd: Option<int>)

  function RowCursor(r: UsageRow): int {
    Cursor(r.usageId)
  }

  predicate Before(a: UsageRow, b: UsageRow) {
    Less(a.usageId, b.usageId)
  }

  ghost predicate Sorted(s: seq<UsageRow>) {
    forall i, j :: 0 <= i < j < |s| ==> Before(s[i], s[j])
  }

  /** One machine's rows: no two share a cursor. */
  ghost predicate StrictCursors(s: seq<UsageRow>) {
    forall i, j :: 0 <= i < j < |s| ==> RowCursor(s[i]) < RowCursor(s[j])
  }

  ghost predicate DistinctIds(s: seq<UsageRow>) {
    forall i, j :: 0 <= i < j < |s| ==> s[i].usageId != s[j].usageId
  }

  lemma {:induction false} SortedUnique(a: seq<UsageRow>, b: seq<UsageRow>)
    requires Sorted(a) && Sorted(b)
    requires forall r :: r in a <==> r in b
    ensures a == b
  {
    assert a == [] || a[0] in b;
    assert b == [] || b[0] in a;
    if a != [] && b != [] {
      assert a[0] == b[0];
      forall r
        ensures r in a[1..] <==> r in b[1..]
      {
        TailMembers(a, r);
        TailMembers(b, r);
      }
      SortedUnique(a[1..], b[1..]);
      assert a == [a[0]] + a[1..] && b == [b[0]] + b[1..];
    }
  }

  lemma TailMembers(a: seq<UsageRow>, r: UsageRow)
    requires Sorted(a) && a != []
    ensures r in a[1..] <==> r in a && r != a[0]
  {
  }

  // ---------------------------------------------------------------------------
  // WHERE, ORDER BY, LIMIT
  // ---------------------------------------------------------------------------

  function Filter(s: seq<UsageRow>, p: UsageRow -> bool): (f: seq<UsageRow>)
    ensures forall r :: r in f <==> r in s && p(r)
  {
    if s == [] then [] else
      assert s == [s[0]] + s[1..];
      (if p(s[0]) then [s[0]] else []) + Filter(s[1..], p)
  }

  function FirstN(s: seq<UsageRow>, n: nat): seq<UsageRow> {
    if |s| <= n then s else s[..n]
  }

  lemma IndexOf(s: seq<UsageRow>, r: UsageRow) returns (i: nat)
    requires r in s
    ensures i < |s| && s[i] == r
  {
    i :| 0 <= i < |s| && s[i] == r;
  }

  lemma TailRowsFollow(s: seq<UsageRow>, r: UsageRow)
    requires s != [] && r in s[1..]
    ensures Sorted(s) ==> Before(s[0], r)
    ensures StrictCursors(s) ==> RowCursor(s[0]) < RowCursor(r)
    ensures DistinctIds(s) ==> s[0].usageId != r.usageId
  {
  }

  lemma {:induction false} FilterKeepsSorted(s: seq<UsageRow>, p: UsageRow -> bool)
    requires Sorted(s)
    ensures Sorted(Filter(s, p))
  {
    if s != [] {
      FilterKeepsSorted(s[1..], p);
      forall r | r in Filter(s[1..], p)
        ensures Before(s[0], r)
      {
        TailRowsFollow(s, r);
      }
    }
  }

  /** Sorted rows up to a cursor, then sorted rows past it. */
  lemma SortedJoin(a: seq<UsageRow>, b: seq<UsageRow>, c: int)
    requires Sorted(a) && Sorted(b)
    requires (forall r :: r in a ==> RowCursor(r) <= c) && (forall r :: r in b ==> RowCursor(r) > c)
    ensures Sorted(a + b)
  {
    var all := a + b;
    forall i, j | 0 <= i < j < |all|
      ensures Before(all[i], all[j])
    {
      if i < |a| <= j {
        assert all[i] in a && all[j] in b;
      }
    }
  }

  lemma StrictOfCons(r: UsageRow, rest: seq<UsageRow>)
    requires StrictCursors(rest) && forall q :: q in rest ==> RowCursor(r) < RowCursor(q)
    ensures StrictCursors([r] + rest)
  {
  }

  lemma {:induction false} FilterKeepsStrict(s: seq<UsageRow>, p: UsageRow -> bool)
    requires StrictCursors(s)
    ensures StrictCursors(Filter(s, p))
  {
    if s != [] {
      FilterKeepsStrict(s[1..], p);
      forall r | r in Filter(s[1..], p)
        ensures RowCursor(s[0]) < RowCursor(r)
      {
        TailRowsFollow(s, r);
      }
      StrictOfCons(s[0], Filter(s[1..], p));
    }
  }

  lemma {:induction false} FilterKeepsDistinct(s: seq<UsageRow>, p: UsageRow -> bool)
    requires DistinctIds(s)
    ensures DistinctIds(Filter(s, p))
  {
    if s != [] {
      FilterKeepsDistinct(s[1..], p);
      forall r | r in Filter(s[1..], p)
        ensures s[0].usageId != r.usageId
      {
        TailRowsFollow(s, r);
      }
    }
  }

  function InsertRow(r: UsageRow, s: seq<UsageRow>): (t: seq<UsageRow>)
    ensures forall x :: x in t <==> x == r || x in s
  {
    if s == [] then [r]
    else
      assert s == [s[0]] + s[1..];
      if Before(s[0], r) then [s[0]] + InsertRow(r, s[1..]) else [r] + s
  }

  /** ORDER BY usage_id. */
  function SortRows(s: seq<UsageRow>): (t: seq<UsageRow>)
    ensures forall x :: x in t <==> x in s
  {
    if s == [] then [] else
      assert s == [s[0]] + s[1..];
      InsertRow(s[0], SortRows(s[1..]))
  }

  lemma {:induction false} InsertKeepsSorted(r: UsageRow, s: seq<UsageRow>)
    requires Sorted(s) && forall x :: x in s ==> x.usageId != r.usageId
    ensures Sorted(InsertRow(r, s))
  {
    if s != [] {
      assert s[0] in s;
      LessIsTotal(s[0].usageId, r.usageId);
      if Before(s[0], r) {
        assert forall x :: x in s[1..] ==> x in s;
        InsertKeepsSorted(r, s[1..]);
        var t := InsertRow(r, s[1..]);
        forall j | 0 <= j < |t|
          ensures Before(s[0], t[j])
        {
          assert t[j] in t;
          if t[j] != r {
            assert t[j] in s[1..];
          }
        }
      }
    }
  }

  lemma {:induction false} SortRowsSorts(s: seq<UsageRow>)
    requires DistinctIds(s)
    ensures Sorted(SortRows(s))
  {
    if s != [] {
      SortRowsSorts(s[1..]);
      InsertKeepsSorted(s[0], SortRows(s[1..]));
    }
  }

  lemma SortedIsSorted(s: seq<UsageRow>)
    requires Sorted(s)
    ensures SortRows(s) == s
  {
  }

  // ---------------------------------------------------------------------------
  // A page: the first `limit` rows plus the rows that share the last one's cursor
  // ---------------------------------------------------------------------------

  function TieEnd(u: seq<UsageRow>, end: nat): (e: nat)
    requires 1 <= end <= |u|
    ensures end <= e <= |u|
    ensures forall i :: end <= i < e ==> RowCursor(u[i]) == RowCursor(u[end - 1])
    ensures e < |u| ==> RowCursor(u[e]) != RowCursor(u[end - 1])
    decreases |u| - end
  {
    if end < |u| && RowCursor(u[end]) == RowCursor(u[end - 1]) then TieEnd(u, end + 1) else end
  }

  function PageOf(u: seq<UsageRow>, limit: nat): seq<UsageRow>
    requires limit >= 1
  {
    if |u| <= limit then u else u[..TieEnd(u, limit)]
  }

  /** A cut that breaks no group of equal cursors. */
  predicate SplitsNoTie(u: seq<UsageRow>, n: nat)
    requires n <= |u|
  {
    0 < n < |u| ==> RowCursor(u[n]) != RowCursor(u[n - 1])
  }

  /** The page is the shortest prefix with enough rows that splits no group of equal cursors. */
  lemma PageIsShortestCut(u: seq<UsageRow>, limit: nat, n: nat)
    requires Sorted(u) && limit >= 1 && n <= |u|
    ensures var p := PageOf(u, limit);
            && p <= u && |p| >= Min(limit, |u|) && SplitsNoTie(u, |p|)
            && (n >= Min(limit, |u|) && SplitsNoTie(u, n) ==> |p| <= n)
  {
  }

  /** A page holds exactly the rows up to its last cursor. */
  lemma PageIsCursorPrefix(u: seq<UsageRow>, limit: nat, r: UsageRow)
    requires Sorted(u) && limit >= 1 && u != []
    ensures var p := PageOf(u, limit);
            && p != [] && Sorted(p)
            && (r in p <==> r in u && RowCursor(r) <= RowCursor(p[|p| - 1]))
  {
  }
}
