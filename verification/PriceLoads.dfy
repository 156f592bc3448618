/** Loads of the price list in one api process, step by step: a load begins, the database answers it,
    and only then does it store what it read, with inserts, other loads and clears in between. */
module PriceLoads {
  import opened Wrappers
  import opened Prices

  datatype Load = Begun | Answered(list: Stored)

  /** `cache` is the load whose list is in memory. */
  datatype State = State(stored: Stored, loads: seq<Load>, cache: Option<nat>)

  datatype Action = Insert(row: PriceRow) | Begin | Answer(load: nat) | Store(load: nat) | Clear

  ghost predicate Does(s: State, t: State, a: Action) {
    match a
    case Insert(row) => t == s.(stored := s.stored + multiset{row})
    case Begin => t == s.(loads := s.loads + [Begun])
    case Answer(l) => l < |s.loads| && s.loads[l].Begun? && t == s.(loads := s.loads[l := Answered(s.stored)])
    case Store(l) => l < |s.loads| && s.loads[l].Answered? && t == s.(cache := Some(l))
    case Clear => t == s.(cache := None)
  }

  ghost predicate IsRun(run: seq<State>, acts: seq<Action>) {
    && |run| == |acts| + 1 && run[0] == State(multiset{}, [], None)
    && forall i, j :: 0 <= i < |acts| && j == i + 1 ==> Does(run[i], run[j], acts[i])
  }

  ghost predicate HasAnswer(s: State, l: nat) {
    l < |s.loads| && s.loads[l].Answered?
  }

  /** The list in memory holds the row. */
  ghost predicate Uses(s: State, row: PriceRow) {
    s.cache.Some? ==> HasAnswer(s, s.cache.value) && row in s.loads[s.cache.value].list
  }

  /** An answered load keeps its answer; the list only grows; what is in memory has an answer. */
  lemma {:induction false} AnswersStay(run: seq<State>, acts: seq<Action>, i: nat, j: nat)
    requires IsRun(run, acts) && i <= j < |run|
    ensures run[i].stored <= run[j].stored && |run[i].loads| <= |run[j].loads|
    ensures forall l: nat :: HasAnswer(run[i], l) ==> HasAnswer(run[j], l) && run[j].loads[l] == run[i].loads[l]
    decreases j
  {
    if i < j {
      AnswersStay(run, acts, i, j - 1);
      assert Does(run[j - 1], run[j], acts[j - 1]);
    }
  }

  /** A load answered at some step read the list of that step. */
  lemma {:induction false} AnsweredWhen(run: seq<State>, acts: seq<Action>, i: nat, j: nat, l: nat) returns (k: nat)
    requires IsRun(run, acts) && i <= j < |run| && HasAnswer(run[j], l) && !HasAnswer(run[i], l)
    ensures i <= k < j && run[j].loads[l].list == run[k].stored
    decreases j
  {
    assert i < j;
    assert Does(run[j - 1], run[j], acts[j - 1]);
    if HasAnswer(run[j - 1], l) {
      k := AnsweredWhen(run, acts, i, j - 1, l);
      AnswersStay(run, acts, j - 1, j);
    } else {
      k := j - 1;
    }
  }

  /** The row was inserted by step `at`, new. */
  ghost predicate InsertedAt(run: seq<State>, acts: seq<Action>, at: nat, row: PriceRow)
    requires IsRun(run, acts)
  {
    at < |acts| && acts[at] == Insert(row) && row !in run[at].stored
  }

  /** A load's list holds the row exactly when the database had not answered it at the insert. */
  lemma ListHoldsRow(run: seq<State>, acts: seq<Action>, at: nat, row: PriceRow, j: nat, l: nat)
    requires IsRun(run, acts) && InsertedAt(run, acts, at, row) && at < j < |run| && HasAnswer(run[j], l)
    ensures row in run[j].loads[l].list <==> !HasAnswer(run[at], l)
  {
    assert Does(run[at], run[at + 1], acts[at]);
    if HasAnswer(run[at], l) {
      AnswersStay(run, acts, at, j);
      AnsweredEarly(run, acts, at, l);
    } else {
      var k := AnsweredWhen(run, acts, at + 1, j, l);
      AnswersStay(run, acts, at + 1, k);
    }
  }

  lemma AnsweredEarly(run: seq<State>, acts: seq<Action>, at: nat, l: nat)
    requires IsRun(run, acts) && at < |run| && HasAnswer(run[at], l)
    ensures run[at].loads[l].list <= run[at].stored
  {
    var k := AnsweredWhen(run, acts, 0, at, l);
    AnswersStay(run, acts, k, at);
  }

  /** After the clear, what is in memory was stored after the clear. */
  lemma {:induction false} StoredSinceClear(run: seq<State>, acts: seq<Action>, clear: nat, j: nat) returns (k: nat)
    requires IsRun(run, acts) && clear < j < |run| && clear < |acts| && acts[clear].Clear? && run[j].cache.Some?
    ensures clear < k < j && acts[k] == Store(run[j].cache.value) && HasAnswer(run[k], run[j].cache.value)
    ensures HasAnswer(run[j], run[j].cache.value)
    decreases j
  {
    assert Does(run[j - 1], run[j], acts[j - 1]);
    if acts[j - 1].Store? {
      k := j - 1;
    } else {
      k := StoredSinceClear(run, acts, clear, j - 1);
    }
    AnswersStay(run, acts, k, j);
  }

  /** A load the database had answered before the row went in is stored after the clear. */
  ghost predicate StoresOldAnswer(run: seq<State>, acts: seq<Action>, inserted: nat, clear: nat, j: nat)
    requires IsRun(run, acts) && inserted < |acts|
  {
    clear < j < |acts| && acts[j].Store? && HasAnswer(run[inserted], acts[j].load)
  }

  /** Clearing after an insert makes the new row used at once, in every later state, if and only if
      no load that the database answered before the insert stores its list after the clear. */
  lemma ClearedCacheUsesRow(run: seq<State>, acts: seq<Action>, inserted: nat, clear: nat, row: PriceRow)
    requires IsRun(run, acts) && InsertedAt(run, acts, inserted, row)
    requires inserted < clear < |acts| && acts[clear].Clear?
    ensures (forall j :: clear < j < |run| ==> Uses(run[j], row)) <==>
              forall j: nat :: !StoresOldAnswer(run, acts, inserted, clear, j)
  {
    if j: nat :| StoresOldAnswer(run, acts, inserted, clear, j) {
      assert Does(run[j], run[j + 1], acts[j]);
      ListHoldsRow(run, acts, inserted, row, j + 1, acts[j].load);
      assert !Uses(run[j + 1], row);
    } else {
      forall j | clear < j < |run|
        ensures Uses(run[j], row)
      {
        if run[j].cache.Some? {
          var k := StoredSinceClear(run, acts, clear, j);
          assert !StoresOldAnswer(run, acts, inserted, clear, k);
          ListHoldsRow(run, acts, inserted, row, j, run[j].cache.value);
        }
      }
    }
  }

  /** In particular when no load begun before the clear stores after it. */
  lemma LoadsBegunAfterTheClear(run: seq<State>, acts: seq<Action>, inserted: nat, clear: nat, row: PriceRow)
    requires IsRun(run, acts) && InsertedAt(run, acts, inserted, row)
    requires inserted < clear < |acts| && acts[clear].Clear?
    requires forall j :: clear < j < |acts| && acts[j].Store? ==> acts[j].load >= |run[clear].loads|
    ensures forall j :: clear < j < |run| ==> Uses(run[j], row)
  {
    AnswersStay(run, acts, inserted, clear);
    ClearedCacheUsesRow(run, acts, inserted, clear, row);
  }

  /** A run in which a load already answered puts the old list back after the clear. */
  lemma OldListComesBack(row: PriceRow) returns (run: seq<State>, acts: seq<Action>)
    ensures IsRun(run, acts) && InsertedAt(run, acts, 2, row)
    ensures |acts| == 5 && acts[3].Clear? && !Uses(run[|run| - 1], row)
  {
    var none: Stored := multiset{};
    acts := [Begin, Answer(0), Insert(row), Clear, Store(0)];
    run := [State(none, [], None), State(none, [Begun], None), State(none, [Answered(none)], None),
            State(multiset{row}, [Answered(none)], None), State(multiset{row}, [Answered(none)], None),
            State(multiset{row}, [Answered(none)], Some(0))];
  }
}
