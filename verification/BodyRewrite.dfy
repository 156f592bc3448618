/** The rewrite of a JSON request body for upstream: members in order, the model's overrides, the
    upstream slug; and the one model that is authorized, sent and metered.
    Member values are opaque except that some are strings. A body is its sequence of tokens. */
module BodyRewrite {
  import opened Wrappers
  import opened Pricing
  import Extraction
  import KeyLifecycle

  datatype Raw = Str(text: string) | NotString(raw: string)

  datatype Member = Member(key: string, value: Raw)

  predicate HasKey(ms: seq<Member>, key: string) {
    exists i :: 0 <= i < |ms| && ms[i].key == key
  }

  ghost predicate UniqueKeys(ms: seq<Member>) {
    forall i, j :: 0 <= i < j < |ms| ==> ms[i].key != ms[j].key
  }

  // ---------------------------------------------------------------------------
  // What spreading members into one object means
  // ---------------------------------------------------------------------------

  /** The keys in the order they first appear. */
  function Firsts(ms: seq<Member>): (ks: seq<string>)
    ensures forall k :: k in ks <==> HasKey(ms, k)
    ensures forall i, j :: 0 <= i < j < |ks| ==> ks[i] != ks[j]
  {
    if ms == [] then []
    else
      var n := |ms| - 1;
      var ks := Firsts(ms[..n]);
      assert forall k :: HasKey(ms, k) <==> HasKey(ms[..n], k) || ms[n].key == k;
      if ms[n].key in ks then ks else ks + [ms[n].key]
  }

  /** The value a key had last. */
  function LastValue(ms: seq<Member>, key: string): Raw {
    if ms == [] then NotString("")
    else if ms[|ms| - 1].key == key then ms[|ms| - 1].value
    else LastValue(ms[..|ms| - 1], key)
  }

  /** `{...ms}`: each key once, at its first place, with its last value. */
  function Spread(ms: seq<Member>): seq<Member> {
    var ks := Firsts(ms);
    seq(|ks|, i requires 0 <= i < |ks| => Member(ks[i], LastValue(ms, ks[i])))
  }

  lemma SpreadIsUnique(ms: seq<Member>)
    ensures UniqueKeys(Spread(ms)) && forall k :: HasKey(Spread(ms), k) <==> HasKey(ms, k)
  {
    var ks := Firsts(ms);
    forall k
      ensures HasKey(Spread(ms), k) <==> k in ks
    {
      if k in ks {
        var i :| 0 <= i < |ks| && ks[i] == k;
        assert Spread(ms)[i].key == k;
      }
    }
  }

  /** `setMember`: in place when the key is there, else at the end. */
  function SetMember(ms: seq<Member>, key: string, v: Raw): seq<Member> {
    if ms == [] then [Member(key, v)]
    else if ms[0].key == key then [Member(key, v)] + ms[1..]
    else [ms[0]] + SetMember(ms[1..], key, v)
  }

  lemma {:induction false} SetMemberAt(ms: seq<Member>, i: nat, key: string, v: Raw)
    requires i <= |ms| && forall j :: 0 <= j < i ==> ms[j].key != key
    requires i < |ms| ==> ms[i].key == key
    ensures SetMember(ms, key, v) == if i < |ms| then ms[i := Member(key, v)] else ms + [Member(key, v)]
  {
    if i > 0 {
      SetMemberAt(ms[1..], i - 1, key, v);
    }
  }

  lemma SpreadOfSnoc(ms: seq<Member>, m: Member)
    ensures Spread(ms + [m]) == SetMember(Spread(ms), m.key, m.value)
  {
    var ks, all := Firsts(ms), ms + [m];
    assert all[..|ms|] == ms;
    forall k
      ensures LastValue(all, k) == if k == m.key then m.value else LastValue(ms, k)
    {
    }
    if m.key in ks {
      var i :| 0 <= i < |ks| && ks[i] == m.key;
      SetMemberAt(Spread(ms), i, m.key, m.value);
    } else {
      SetMemberAt(Spread(ms), |ks|, m.key, m.value);
    }
  }

  lemma {:induction false} SpreadOfUnique(ms: seq<Member>)
    requires UniqueKeys(ms)
    ensures Spread(ms) == ms
  {
    if ms != [] {
      var n := |ms| - 1;
      SpreadOfUnique(ms[..n]);
      assert ms == ms[..n] + [ms[n]];
      SpreadOfSnoc(ms[..n], ms[n]);
      SetMemberAt(ms[..n], n, ms[n].key, ms[n].value);
    }
  }

  /** The first member with the key has the value now, or there was none and one was appended. */
  ghost predicate IsSet(before: seq<Member>, key: string, v: Raw, after: seq<Member>) {
    && (forall i :: 0 <= i < |before| && before[i].key == key && (forall j :: 0 <= j < i ==> before[j].key != key) ==>
          after == before[..i] + [Member(key, v)] + before[i + 1..])
    && ((forall j :: 0 <= j < |before| ==> before[j].key != key) ==> after == before + [Member(key, v)])
  }

  lemma SetMemberIsSet(ms: seq<Member>, key: string, v: Raw)
    ensures IsSet(ms, key, v, SetMember(ms, key, v))
  {
    forall i | 0 <= i < |ms| && ms[i].key == key && (forall j :: 0 <= j < i ==> ms[j].key != key)
      ensures SetMember(ms, key, v) == ms[..i] + [Member(key, v)] + ms[i + 1..]
    {
      SetMemberAt(ms, i, key, v);
    }
    if forall j :: 0 <= j < |ms| ==> ms[j].key != key {
      SetMemberAt(ms, |ms|, key, v);
    }
  }

  // ---------------------------------------------------------------------------
  // The member list
  // ---------------------------------------------------------------------------

  class Members {
    var list: seq<Member>

    constructor (list: seq<Member>)
      ensures this.list == list
    {
      this.list := list;
    }

    method Set(key: string, v: Raw)
      modifies this
      ensures list == SetMember(old(list), key, v)
    {
      for i := 0 to |list|
        invariant list == old(list) && forall j :: 0 <= j < i ==> list[j].key != key
      {
        if list[i].key == key {
          SetMemberAt(list, i, key, v);
          list := list[i := list[i].(value := v)];
          return;
        }
      }
      SetMemberAt(list, |list|, key, v);
      list := list + [Member(key, v)];
    }
  }

  // ---------------------------------------------------------------------------
  // Bodies
  // ---------------------------------------------------------------------------

  datatype Token = Open | Close | Name(name: string) | Value(value: Raw)

  /** The tokens of an object with these members. */
  function Text(ms: seq<Member>): seq<Token> {
    seq(2 * |ms| + 2, i requires 0 <= i < 2 * |ms| + 2 =>
      if i == 0 then Open
      else if i == 2 * |ms| + 1 then Close
      else if i % 2 == 1 then Name(ms[i / 2].key)
      else Value(ms[i / 2 - 1].value))
  }

  /** The body is an object, and this is what it decodes to. */
  ghost predicate Decodes(body: seq<Token>, ms: seq<Member>) {
    exists pairs :: body == Text(pairs) && ms == Spread(pairs)
  }

  ghost predicate IsObject(body: seq<Token>) {
    exists pairs :: body == Text(pairs)
  }

  lemma TextIsInjective(a: seq<Member>, b: seq<Member>)
    requires Text(a) == Text(b)
    ensures a == b
  {
    assert |Text(a)| == 2 * |a| + 2 && |Text(b)| == 2 * |b| + 2;
    forall i | 0 <= i < |a|
      ensures a[i] == b[i]
    {
      assert Text(a)[2 * i + 1] == Text(b)[2 * i + 1];
      assert Text(a)[2 * i + 2] == Text(b)[2 * i + 2];
    }
  }

  /** Writing members and reading them back gives them back exactly when no key repeats. */
  lemma RoundTrip(ms: seq<Member>)
    ensures Decodes(Text(ms), ms) <==> UniqueKeys(ms)
  {
    if UniqueKeys(ms) {
      SpreadOfUnique(ms);
    }
    forall pairs | ms == Spread(pairs)
      ensures UniqueKeys(ms)
    {
      SpreadIsUnique(pairs);
    }
  }

  lemma DecodesOnce(body: seq<Token>, a: seq<Member>, b: seq<Member>)
    requires Decodes(body, a) && Decodes(body, b)
    ensures a == b && UniqueKeys(a)
  {
    var p :| body == Text(p) && a == Spread(p);
    var q :| body == Text(q) && b == Spread(q);
    TextIsInjective(p, q);
    SpreadIsUnique(p);
  }

  lemma TextGrows(body: seq<Token>, pairs: seq<Member>, i: nat, m: Member)
    requires i == 2 * |pairs| + 1 && i + 1 < |body| && body[..i] == Text(pairs)[..i]
    requires body[i] == Name(m.key) && body[i + 1] == Value(m.value)
    ensures body[..i + 2] == Text(pairs + [m])[..i + 2]
  {
    var t := Text(pairs + [m]);
    forall k | 0 <= k < i + 2
      ensures body[k] == t[k]
    {
      assert k < i ==> body[..i][k] == Text(pairs)[..i][k];
    }
  }

  /** Where the tokens of an object can be. */
  lemma ObjectShape(body: seq<Token>, i: nat)
    requires i % 2 == 1
    ensures IsObject(body) ==> |body| >= 2 && |body| % 2 == 0 && body[0] == Open && body[|body| - 1] == Close
    ensures IsObject(body) && i < |body| - 1 ==> body[i].Name? && body[i + 1].Value?
  {
  }

  /** A proper beginning of an object's text is no object. */
  lemma BeginningIsNoObject(body: seq<Token>, n: nat)
    requires IsObject(body) && n < |body|
    ensures !IsObject(body[..n])
  {
    var pairs :| body == Text(pairs);
    forall ms
      ensures body[..n] != Text(ms)
    {
      assert n > 0 ==> body[..n][n - 1] == Text(pairs)[n - 1] != Close;
      assert Text(ms)[2 * |ms| + 1] == Close;
    }
  }

  /** `objectMembers`: any other body is an error. */
  method ObjectMembers(body: seq<Token>) returns (r: Option<Members>)
    ensures r.Some? <==> IsObject(body)
    ensures r.Some? ==> fresh(r.value) && Decodes(body, r.value.list)
  {
    if body == [] || body[0] != Open {
      return None;
    }
    var out := new Members([]);
    ghost var pairs := [];
    var i := 1;
    while i < |body| && body[i] != Close
      invariant i == 2 * |pairs| + 1 && i <= |body| && body[..i] == Text(pairs)[..i]
      invariant out.list == Spread(pairs) && fresh(out)
    {
      ObjectShape(body, i);
      if !body[i].Name? || i + 1 >= |body| || !body[i + 1].Value? {
        return None;
      }
      var m := Member(body[i].name, body[i + 1].value);
      TextGrows(body, pairs, i, m);
      SpreadOfSnoc(pairs, m);
      pairs := pairs + [m];
      out.Set(m.key, m.value);
      i := i + 2;
    }
    ObjectShape(body, i);
    if i + 1 != |body| {
      return None;
    }
    assert body == Text(pairs);
    r := Some(out);
  }

  method EncodeMembers(ms: seq<Member>) returns (body: seq<Token>)
    ensures body == Text(ms)
  {
    body := [Open];
    for i := 0 to |ms|
      invariant |body| == 2 * i + 1 && body == Text(ms)[..2 * i + 1]
    {
      body := body + [Name(ms[i].key)];
      body := body + [Value(ms[i].value)];
    }
    body := body + [Close];
  }

  // ---------------------------------------------------------------------------
  // The catalog and the rewrite
  // ---------------------------------------------------------------------------

  /** `upstream` is "" when the slug is the same upstream. */
  datatype Entry = Entry(upstream: string, overrides: seq<Member>, rates: Rates)

  type Catalog = map<string, Entry>

  function Upstream(catalog: Catalog, model: string): string {
    if model in catalog && catalog[model].upstream != "" then catalog[model].upstream else model
  }

  function OverridesOf(catalog: Catalog, model: string): seq<Member> {
    if model in catalog then catalog[model].overrides else []
  }

  /** `{...body, ...overrides, model: upstream}` */
  function Rewritten(catalog: Catalog, model: string, ms: seq<Member>): seq<Member> {
    Spread(ms + OverridesOf(catalog, model) + [Member("model", Str(Upstream(catalog, model)))])
  }

  lemma SpreadOneMore(ms: seq<Member>, more: seq<Member>, i: nat)
    requires i < |more|
    ensures Spread(ms + more[..i + 1]) == SetMember(Spread(ms + more[..i]), more[i].key, more[i].value)
  {
    assert ms + more[..i + 1] == (ms + more[..i]) + [more[i]];
    SpreadOfSnoc(ms + more[..i], more[i]);
  }

  /** Works on a copy: the client's members stay as they were. No result when there is nothing to
      rewrite. */
  method MergeRequestBody(catalog: Catalog, model: string, original: Members) returns (body: Option<seq<Token>>)
    requires UniqueKeys(original.list)
    ensures body.None? <==> Upstream(catalog, model) == model && OverridesOf(catalog, model) == []
    ensures body.Some? ==> body.value == Text(Rewritten(catalog, model, original.list))
  {
    var upstream, overrides := model, [];
    if model in catalog {
      overrides := catalog[model].overrides;
      if catalog[model].upstream != "" {
        upstream := catalog[model].upstream;
      }
    }
    if upstream == model && overrides == [] {
      return None;
    }
    var merged := new Members(original.list);
    SpreadOfUnique(original.list);
    assert original.list + overrides[..0] == original.list;
    for i := 0 to |overrides|
      invariant fresh(merged) && merged.list == Spread(original.list + overrides[..i])
    {
      SpreadOneMore(original.list, overrides, i);
      merged.Set(overrides[i].key, overrides[i].value);
    }
    assert overrides[..|overrides|] == overrides;
    SpreadOfSnoc(original.list + overrides, Member("model", Str(upstream)));
    merged.Set("model", Str(upstream));
    var text := EncodeMembers(merged.list);
    body := Some(text);
  }

  /** The member's value when it is a string, else "". */
  function JsonString(ms: seq<Member>, key: string): string {
    if ms == [] then ""
    else if ms[0].key == key then (if ms[0].value.Str? then ms[0].value.text else "")
    else JsonString(ms[1..], key)
  }

  lemma {:induction false} JsonStringAt(ms: seq<Member>, key: string) returns (i: nat)
    ensures i <= |ms| && forall j :: 0 <= j < i ==> ms[j].key != key
    ensures i < |ms| ==> ms[i].key == key
    ensures JsonString(ms, key) == if i < |ms| && ms[i].value.Str? then ms[i].value.text else ""
  {
    if ms == [] || ms[0].key == key {
      i := 0;
    } else {
      var k := JsonStringAt(ms[1..], key);
      i := k + 1;
    }
  }

  /** Where nothing changes, the rewrite would have changed nothing. */
  lemma UnchangedIsRewritten(catalog: Catalog, model: string, ms: seq<Member>)
    requires UniqueKeys(ms) && JsonString(ms, "model") == model != ""
    requires Upstream(catalog, model) == model && OverridesOf(catalog, model) == []
    ensures Rewritten(catalog, model, ms) == ms
  {
    assert ms + [] == ms;
    SpreadOfUnique(ms);
    SpreadOfSnoc(ms, Member("model", Str(model)));
    var i := JsonStringAt(ms, "model");
    SetMemberAt(ms, i, "model", Str(model));
  }

  // ---------------------------------------------------------------------------
  // What is sent, said on the client's members and the catalog entry alone
  // ---------------------------------------------------------------------------

  ghost function SlugFor(catalog: Catalog, model: string): string {
    if model in catalog && catalog[model].upstream != "" then catalog[model].upstream else model
  }

  /** The model's entry overrides the key, and this is the value it has last. */
  ghost predicate Overrides(catalog: Catalog, model: string, m: Member) {
    && model in catalog
    && exists j :: 0 <= j < |catalog[model].overrides| && catalog[model].overrides[j] == m
         && forall k :: j < k < |catalog[model].overrides| ==> catalog[model].overrides[k].key != m.key
  }

  ghost predicate Overridden(catalog: Catalog, model: string, key: string) {
    model in catalog && exists j :: 0 <= j < |catalog[model].overrides| && catalog[model].overrides[j].key == key
  }

  /** One member of what is sent: the slug under "model", an override's value under its key, and the
      client's own member otherwise. */
  ghost predicate SentMember(catalog: Catalog, model: string, ms: seq<Member>, m: Member) {
    if m.key == "model" then m.value == Str(SlugFor(catalog, model))
    else if Overridden(catalog, model, m.key) then Overrides(catalog, model, m)
    else m in ms
  }

  /** The client's keys first and in their places, then what the overrides add; "model" is among them. */
  ghost predicate IsSent(catalog: Catalog, model: string, ms: seq<Member>, out: seq<Member>) {
    && UniqueKeys(out) && |out| >= |ms| && HasKey(out, "model")
    && (forall i :: 0 <= i < |ms| ==> out[i].key == ms[i].key)
    && (forall i :: 0 <= i < |out| ==> SentMember(catalog, model, ms, out[i]))
    && (forall key :: Overridden(catalog, model, key) ==> HasKey(out, key))
  }

  lemma {:induction false} LastValueIsLast(ms: seq<Member>, key: string) returns (j: nat)
    requires HasKey(ms, key)
    ensures j < |ms| && ms[j] == Member(key, LastValue(ms, key))
    ensures forall k :: j < k < |ms| ==> ms[k].key != key
  {
    var n := |ms| - 1;
    if ms[n].key == key {
      j := n;
    } else {
      assert HasKey(ms[..n], key) by {
        var i :| 0 <= i < |ms| && ms[i].key == key;
        assert ms[..n][i].key == key;
      }
      j := LastValueIsLast(ms[..n], key);
    }
  }

  lemma SpreadAt(ms: seq<Member>, i: nat)
    requires i < |Spread(ms)|
    ensures HasKey(ms, Spread(ms)[i].key) && Spread(ms)[i].value == LastValue(ms, Spread(ms)[i].key)
  {
    assert Firsts(ms)[i] in Firsts(ms);
  }

  lemma OverriddenIs(catalog: Catalog, model: string, key: string)
    ensures Overridden(catalog, model, key) <==> HasKey(OverridesOf(catalog, model), key)
  {
  }

  lemma RewrittenMember(catalog: Catalog, model: string, ms: seq<Member>, i: nat)
    requires UniqueKeys(ms) && i < |Rewritten(catalog, model, ms)|
    ensures SentMember(catalog, model, ms, Rewritten(catalog, model, ms)[i])
  {
    var o, m := OverridesOf(catalog, model), Member("model", Str(Upstream(catalog, model)));
    var all := ms + o + [m];
    var key := Spread(all)[i].key;
    SpreadAt(all, i);
    assert all[|ms + o|] == m && all[..|ms + o|] == ms + o;
    LastValueOfConcat(ms + o, [m], key);
    if key != "model" {
      assert !HasKey([m], key);
      LastValueOfConcat(ms, o, key);
      OverriddenIs(catalog, model, key);
      HasKeyOfSnoc(ms + o, m, key);
      if HasKey(o, key) {
        var j := LastValueIsLast(o, key);
        assert catalog[model].overrides[j] == Spread(all)[i];
      } else {
        HasKeyOfConcat(ms, o, key);
        var j := LastValueIsLast(ms, key);
        assert ms[j] == Spread(all)[i];
      }
    } else {
      assert HasKey([m], key) by { assert [m][0].key == key; }
    }
  }

  lemma HasKeyOfConcat(a: seq<Member>, b: seq<Member>, key: string)
    ensures HasKey(a + b, key) <==> HasKey(a, key) || HasKey(b, key)
  {
    if i :| 0 <= i < |a + b| && (a + b)[i].key == key {
      assert if i < |a| then a[i].key == key else b[i - |a|].key == key;
    }
    if i :| 0 <= i < |a| && a[i].key == key {
      assert (a + b)[i].key == key;
    }
    if i :| 0 <= i < |b| && b[i].key == key {
      assert (a + b)[|a| + i].key == key;
    }
  }

  lemma RewrittenHas(catalog: Catalog, model: string, ms: seq<Member>, key: string)
    requires key == "model" || Overridden(catalog, model, key)
    ensures HasKey(Rewritten(catalog, model, ms), key)
  {
    var o, m := OverridesOf(catalog, model), Member("model", Str(Upstream(catalog, model)));
    SpreadIsUnique(ms + o + [m]);
    OverriddenIs(catalog, model, key);
    HasKeyOfConcat(ms, o, key);
    HasKeyOfSnoc(ms + o, m, key);
  }

  /** What is sent for a model is the client's object with the overrides and the slug. */
  lemma RewrittenIsSent(catalog: Catalog, model: string, ms: seq<Member>)
    requires UniqueKeys(ms)
    ensures IsSent(catalog, model, ms, Rewritten(catalog, model, ms))
  {
    var out := Rewritten(catalog, model, ms);
    SpreadIsUnique(ms + OverridesOf(catalog, model) + [Member("model", Str(Upstream(catalog, model)))]);
    RewrittenHas(catalog, model, ms, "model");
    forall i | 0 <= i < |ms|
      ensures |out| >= |ms| && out[i].key == ms[i].key
    {
      RewriteIsFaithful(catalog, model, ms, i);
    }
    assert |out| >= |ms| by {
      if ms != [] {
        RewriteIsFaithful(catalog, model, ms, 0);
      }
    }
    forall i | 0 <= i < |out|
      ensures SentMember(catalog, model, ms, out[i])
    {
      RewrittenMember(catalog, model, ms, i);
    }
    forall key | Overridden(catalog, model, key)
      ensures HasKey(out, key)
    {
      RewrittenHas(catalog, model, ms, key);
    }
  }

  datatype Outcome = Refused(model: string) | Forward(body: seq<Token>, model: string)

  /** The request asks for this model; "" when its body is no object or names none. */
  ghost predicate Asks(body: seq<Token>, model: string) {
    if IsObject(body) then exists ms :: Decodes(body, ms) && Names(ms, model)
    else model == ""
  }

  /** The object's "model" is this string; "" stands for none, or for one that is no string. */
  ghost predicate Names(ms: seq<Member>, model: string) {
    if model != "" then Member("model", Str(model)) in ms
    else forall m :: m in ms && m.key == "model" && m.value.Str? ==> m.value.text == ""
  }

  lemma JsonStringNames(ms: seq<Member>)
    requires UniqueKeys(ms)
    ensures Names(ms, JsonString(ms, "model"))
  {
    var i := JsonStringAt(ms, "model");
    if JsonString(ms, "model") != "" {
      assert ms[i] == Member("model", Str(JsonString(ms, "model")));
    } else {
      forall m | m in ms && m.key == "model" && m.value.Str?
        ensures m.value.text == ""
      {
        var j :| 0 <= j < |ms| && ms[j] == m;
      }
    }
  }

  /** `sent` decodes to the client's object rewritten for `model`. */
  ghost predicate IsRewrite(catalog: Catalog, model: string, body: seq<Token>, sent: seq<Token>) {
    exists ms, out :: Decodes(body, ms) && Decodes(sent, out) && IsSent(catalog, model, ms, out)
  }

  /** The JSON branch of `readBody`. With or without a rewrite, what is forwarded for a named model
      is the rewritten object. */
  method ReadJsonBody(catalog: Catalog, granted: seq<string>, body: seq<Token>) returns (r: Outcome)
    ensures Asks(body, r.model)
    ensures r.Refused? <==> r.model != "" && "*" !in granted && r.model !in granted
    ensures r.Forward? ==> if r.model == "" then r.body == body else IsRewrite(catalog, r.model, body, r.body)
  {
    var obj := ObjectMembers(body);
    if obj.None? {
      return Forward(body, "");
    }
    var ms := obj.value.list;
    DecodesOnce(body, ms, ms);
    JsonStringNames(ms);
    var model := JsonString(ms, "model");
    if model == "" {
      return Forward(body, "");
    }
    if !KeyLifecycle.Grants(granted, model) {
      return Refused(model);
    }
    RewrittenIsSent(catalog, model, ms);
    var merged := MergeRequestBody(catalog, model, obj.value);
    if merged.Some? {
      var all := ms + OverridesOf(catalog, model) + [Member("model", Str(Upstream(catalog, model)))];
      SpreadIsUnique(all);
      RoundTrip(Rewritten(catalog, model, ms));
      return Forward(merged.value, model);
    }
    UnchangedIsRewritten(catalog, model, ms);
    r := Forward(body, model);
  }

  lemma {:induction false} LastValueOfConcat(a: seq<Member>, b: seq<Member>, key: string)
    ensures LastValue(a + b, key) == if HasKey(b, key) then LastValue(b, key) else LastValue(a, key)
    decreases |b|
  {
    if b == [] {
      assert a + b == a;
    } else {
      var n := |b| - 1;
      assert (a + b)[..|a| + n] == a + b[..n];
      LastValueOfConcat(a, b[..n], key);
      assert HasKey(b, key) <==> HasKey(b[..n], key) || b[n].key == key;
    }
  }

  lemma FirstsOfSnoc(ms: seq<Member>, m: Member)
    ensures Firsts(ms) <= Firsts(ms + [m])
  {
    assert (ms + [m])[..|ms|] == ms;
  }

  lemma {:induction false} FirstsOfConcat(a: seq<Member>, b: seq<Member>)
    ensures Firsts(a) <= Firsts(a + b)
    decreases |b|
  {
    if b == [] {
      assert a + b == a;
    } else {
      var n := |b| - 1;
      FirstsOfConcat(a, b[..n]);
      FirstsOfSnoc(a + b[..n], b[n]);
      assert a + b == a + b[..n] + [b[n]];
    }
  }

  lemma {:induction false} JsonStringOfSpread(ms: seq<Member>, key: string)
    requires HasKey(ms, key) && LastValue(ms, key).Str?
    ensures JsonString(Spread(ms), key) == LastValue(ms, key).text
  {
    SpreadIsUnique(ms);
    var i := JsonStringAt(Spread(ms), key);
    assert HasKey(Spread(ms), key);
  }

  /** Members spread over an object: its keys keep their places, and their values unless replaced. */
  lemma SpreadKeeps(ms: seq<Member>, more: seq<Member>, i: nat)
    requires UniqueKeys(ms) && i < |ms|
    ensures var out := Spread(ms + more);
            && |out| >= |ms| && out[i].key == ms[i].key
            && (!HasKey(more, ms[i].key) ==> out[i] == ms[i])
  {
    SpreadOfUnique(ms);
    FirstsOfConcat(ms, more);
    assert Firsts(ms)[i] == Spread(ms)[i].key == ms[i].key;
    assert Firsts(ms + more)[i] == Firsts(ms)[i];
    LastValueOfConcat(ms, more, ms[i].key);
    assert Spread(ms)[i].value == LastValue(ms, ms[i].key);
  }

  lemma HasKeyOfSnoc(o: seq<Member>, m: Member, key: string)
    ensures HasKey(o + [m], key) <==> HasKey(o, key) || m.key == key
  {
    if HasKey(o + [m], key) {
      var j :| 0 <= j < |o + [m]| && (o + [m])[j].key == key;
      assert j < |o| ==> o[j].key == key;
    }
    if m.key == key {
      assert (o + [m])[|o|].key == key;
    }
    if HasKey(o, key) {
      var j :| 0 <= j < |o| && o[j].key == key;
      assert (o + [m])[j].key == key;
    }
  }

  /** On the wire: `model` is the upstream slug of the model that was asked for, every key the
      overrides and the rewrite leave alone keeps its value, and the client's keys keep their
      places. */
  lemma RewriteIsFaithful(catalog: Catalog, model: string, ms: seq<Member>, i: nat)
    requires UniqueKeys(ms) && i < |ms|
    ensures var out := Rewritten(catalog, model, ms);
            && JsonString(out, "model") == Upstream(catalog, model)
            && |out| >= |ms| && out[i].key == ms[i].key
            && (ms[i].key != "model" && !HasKey(OverridesOf(catalog, model), ms[i].key) ==> out[i] == ms[i])
  {
    var o, m := OverridesOf(catalog, model), Member("model", Str(Upstream(catalog, model)));
    assert ms + o + [m] == ms + (o + [m]);
    HasKeyOfSnoc(ms + o, m, "model");
    JsonStringOfSpread(ms + o + [m], "model");
    SpreadKeeps(ms, o + [m], i);
    HasKeyOfSnoc(o, m, ms[i].key);
  }

  // ---------------------------------------------------------------------------
  // Metering
  // ---------------------------------------------------------------------------

  /** The upstream's answer: a stream of lines, or a body that may not be JSON. */
  datatype Answer = Stream(lines: seq<Extraction.Line>) | Single(body: Option<Extraction.Json>)

  datatype Metered = Metered(model: string, usage: Usage, providerCost: Option<real>, cost: Option<real>)

  function ReportedBy(answer: Answer): Option<Extraction.Reported> {
    match answer
    case Stream(lines) => Extraction.SseUsage(lines)
    case Single(None) => None
    case Single(Some(obj)) => Extraction.UsageFromObject(obj)
  }

  predicate PricedPerRequest(catalog: Catalog, model: string) {
    model in catalog && catalog[model].rates.perRequest.Some?
  }

  /** The usage row of one answered request carries the client's model, and the estimate at that
      model's catalog rates. */
  method Meter(catalog: Catalog, clientModel: string, answer: Answer) returns (row: Option<Metered>)
    ensures row.Some? <==> ReportedBy(answer).Some? || PricedPerRequest(catalog, clientModel)
    ensures row.Some? ==>
              var reported := ReportedBy(answer).GetOr(Extraction.Reported(Usage(0.0, 0.0, 0.0, 0.0), None));
              && row.value.model == (if clientModel == "" then "-" else clientModel)
              && row.value.usage == reported.usage && row.value.providerCost == reported.cost
              && row.value.cost ==
                   if clientModel in catalog then Some(Cost(catalog[clientModel].rates, reported.usage)) else None
  {
    var reported;
    match answer {
      case Stream(lines) => reported := Extraction.ExtractUsageFromSSE(lines);
      case Single(body) => reported := if body.None? then None else Extraction.UsageFromObject(body.value);
    }
    var perRequest := clientModel in catalog && catalog[clientModel].rates.perRequest.Some?;
    if reported.None? && !perRequest {
      return None;
    }
    var usage, providerCost := Usage(0.0, 0.0, 0.0, 0.0), None;
    if reported.Some? {
      usage, providerCost := reported.value.usage, reported.value.cost;
    }
    var model := clientModel;
    if model == "" {
      model := "-";
    }
    var cost := None;
    if clientModel in catalog {
      var c := ProxyCost(catalog[clientModel].rates, usage);
      cost := Some(c);
    }
    row := Some(Metered(model, usage, providerCost, cost));
  }
}
