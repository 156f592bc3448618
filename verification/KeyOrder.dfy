/** The order of an object's keys: as the rewrite keeps it, and as a JavaScript object has it. */
module KeyOrder {
  import opened BodyRewrite

  predicate AllDecimal(key: string) {
    forall i :: 0 <= i < |key| ==> '0' <= key[i] <= '9'
  }

  function DecimalValue(key: string): nat
    requires AllDecimal(key)
  {
    if key == "" then 0 else DecimalValue(key[..|key| - 1]) * 10 + (key[|key| - 1] as int - '0' as int)
  }

  /** An integer-like key: a decimal number below 2^32 - 1 with no leading zero. */
  predicate IsIndex(key: string) {
    key != "" && AllDecimal(key) && (key[0] != '0' || key == "0") && DecimalValue(key) < 0xffff_ffff
  }

  predicate IndexBefore(a: Member, b: Member) {
    IsIndex(a.key) && IsIndex(b.key) && DecimalValue(a.key) <= DecimalValue(b.key)
  }

  function Indexes(ms: seq<Member>): (r: seq<Member>)
    ensures forall m :: m in r ==> IsIndex(m.key)
  {
    if ms == [] then [] else (if IsIndex(ms[0].key) then [ms[0]] else []) + Indexes(ms[1..])
  }

  function Names(ms: seq<Member>): (r: seq<Member>)
    ensures forall m :: m in r ==> !IsIndex(m.key)
  {
    if ms == [] then [] else (if IsIndex(ms[0].key) then [] else [ms[0]]) + Names(ms[1..])
  }

  function InsertIndex(m: Member, s: seq<Member>): seq<Member> {
    if s == [] || IndexBefore(m, s[0]) then [m] + s else [s[0]] + InsertIndex(m, s[1..])
  }

  function SortIndexes(s: seq<Member>): seq<Member> {
    if s == [] then [] else InsertIndex(s[0], SortIndexes(s[1..]))
  }

  /** The members as a JavaScript object enumerates them: integer-like keys ascending, then the
      other keys as they first appeared. */
  function JsOrder(ms: seq<Member>): seq<Member> {
    SortIndexes(Indexes(ms)) + Names(ms)
  }

  ghost predicate Ascending(s: seq<Member>) {
    forall i, j :: 0 <= i < j < |s| ==> IndexBefore(s[i], s[j])
  }

  /** The integer-like keys come first, in ascending order. */
  ghost predicate IndexesLead(ms: seq<Member>, n: nat) {
    && n <= |ms| && Ascending(ms[..n])
    && forall i :: 0 <= i < |ms| ==> (IsIndex(ms[i].key) <==> i < n)
  }

  lemma {:induction false} InsertIndexSorts(m: Member, s: seq<Member>)
    requires Ascending(s) && IsIndex(m.key) && forall x :: x in s ==> IsIndex(x.key)
    ensures var t := InsertIndex(m, s);
            Ascending(t) && |t| == |s| + 1 && forall x :: x in t <==> x == m || x in s
  {
    if s != [] {
      assert s == [s[0]] + s[1..];
      if !IndexBefore(m, s[0]) {
        InsertIndexSorts(m, s[1..]);
        var t := InsertIndex(m, s[1..]);
        forall j | 0 <= j < |t|
          ensures IndexBefore(s[0], t[j])
        {
          assert t[j] in t;
        }
      }
    }
  }

  lemma {:induction false} SortIndexesSorts(s: seq<Member>)
    requires forall x :: x in s ==> IsIndex(x.key)
    ensures var t := SortIndexes(s); Ascending(t) && |t| == |s| && forall x :: x in t <==> x in s
  {
    if s != [] {
      assert s == [s[0]] + s[1..];
      SortIndexesSorts(s[1..]);
      InsertIndexSorts(s[0], SortIndexes(s[1..]));
    }
  }

  lemma {:induction false} AscendingIsSorted(s: seq<Member>)
    requires Ascending(s) && forall x :: x in s ==> IsIndex(x.key)
    ensures SortIndexes(s) == s
  {
    if s != [] {
      assert s == [s[0]] + s[1..];
      AscendingIsSorted(s[1..]);
    }
  }

  lemma {:induction false} PartsOfNames(names: seq<Member>)
    requires forall m :: m in names ==> !IsIndex(m.key)
    ensures Indexes(names) == [] && Names(names) == names
  {
    if names != [] {
      assert names[0] in names && names == [names[0]] + names[1..];
      PartsOfNames(names[1..]);
    }
  }

  lemma {:induction false} PartsOfBoth(ints: seq<Member>, names: seq<Member>)
    requires forall m :: m in ints ==> IsIndex(m.key)
    requires forall m :: m in names ==> !IsIndex(m.key)
    ensures Indexes(ints + names) == ints && Names(ints + names) == names
  {
    if ints == [] {
      assert ints + names == names;
      PartsOfNames(names);
    } else {
      assert ints[0] in ints && ints == [ints[0]] + ints[1..] && (ints + names)[1..] == ints[1..] + names;
      PartsOfBoth(ints[1..], names);
    }
  }

  lemma PartsLead(ints: seq<Member>, names: seq<Member>)
    requires Ascending(ints) && forall m :: m in ints ==> IsIndex(m.key)
    requires forall m :: m in names ==> !IsIndex(m.key)
    ensures IndexesLead(ints + names, |ints|)
  {
    var ms := ints + names;
    assert ms[..|ints|] == ints;
    forall i | 0 <= i < |ms|
      ensures IsIndex(ms[i].key) <==> i < |ints|
    {
      assert if i < |ints| then ms[i] in ints else ms[i] in names;
    }
  }

  lemma JsOrderLeads(ms: seq<Member>)
    requires JsOrder(ms) == ms
    ensures IndexesLead(ms, |Indexes(ms)|)
  {
    SortIndexesSorts(Indexes(ms));
    PartsLead(SortIndexes(Indexes(ms)), Names(ms));
  }

  lemma LeadsIsJsOrder(ms: seq<Member>, n: nat)
    requires IndexesLead(ms, n)
    ensures JsOrder(ms) == ms
  {
    assert ms == ms[..n] + ms[n..];
    PartsOfBoth(ms[..n], ms[n..]);
    AscendingIsSorted(ms[..n]);
  }

  /** An object's order is the one JavaScript gives it if and only if its integer-like keys are an
      ascending prefix of it. */
  lemma OrderIsJavaScripts(ms: seq<Member>)
    ensures JsOrder(Spread(ms)) == Spread(ms) <==> exists n: nat :: IndexesLead(Spread(ms), n)
  {
    if JsOrder(Spread(ms)) == Spread(ms) {
      JsOrderLeads(Spread(ms));
    }
    if n: nat :| IndexesLead(Spread(ms), n) {
      LeadsIsJsOrder(Spread(ms), n);
    }
  }

  /** It is not for a client that puts an integer-like key after another one. */
  lemma OrderCanDiffer(v: Raw, w: Raw)
    ensures var ms := [Member("a", v), Member("1", w)]; Spread(ms) == ms && JsOrder(ms) != ms
  {
    var ms := [Member("a", v), Member("1", w)];
    SpreadOfUnique(ms);
    assert DecimalValue("1"[..0]) == 0 && DecimalValue("1") == 1;
    assert ms[0].key == "a" && ms[1].key == "1" && IsIndex("1") && !IsIndex("a");
    if JsOrder(ms) == ms {
      JsOrderLeads(ms);
    }
  }
}
