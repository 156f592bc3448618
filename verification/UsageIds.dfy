/** Usage ids: UUIDv7 values, their printed form, and the cross-machine cursor.
    A UUIDv7 is its 48-bit millisecond time, a 12-bit counter and 64 further bits (two
    variant bits and 62 random ones), as in section 5.7 of RFC 9562. */
module UsageIds {

  const EPOCH_MS: nat := 1767225600000 // 2026-01-01T00:00:00Z
  const PER_MS: nat := 4096
  const MS_LIMIT: nat := 0x1_0000_0000_0000
  const TAIL_LIMIT: nat := 0x1_0000_0000_0000_0000
  const OVERLAP_MS: nat := 10000
  const OVERLAP_REST := "0000-0000-000000000000"

  datatype Uuid7 = Uuid7(ms: nat, counter: nat, tail: nat) {
    predicate Fits() {
      ms < MS_LIMIT && counter < PER_MS && tail < TAIL_LIMIT
    }
  }

  type UsageId = u: Uuid7 | u.Fits() witness Uuid7(0, 0, 0)

  /** Time and counter as one number; one machine never repeats it. */
  function Stamp(u: UsageId): nat {
    u.ms * PER_MS + u.counter
  }

  predicate Less(a: UsageId, b: UsageId) {
    Stamp(a) < Stamp(b) || (Stamp(a) == Stamp(b) && a.tail < b.tail)
  }

  /** What the printed cursor must mean: counter steps since the epoch. */
  function Cursor(u: UsageId): int {
    Stamp(u) - EPOCH_MS * PER_MS
  }

  lemma LessIsTotal(a: UsageId, b: UsageId)
    ensures a == b || Less(a, b) || Less(b, a)
  {
  }

  // ---------------------------------------------------------------------------
  // Strings and hexadecimal
  // ---------------------------------------------------------------------------

  /** The order SQLite gives TEXT values and a client gives strings: first difference decides,
      a proper prefix comes first. */
  predicate LexLess(s: string, t: string) {
    |t| > 0 && (|s| == 0 || s[0] < t[0] || (s[0] == t[0] && LexLess(s[1..], t[1..])))
  }

  function Digit(n: nat): char
    requires n < 16
  {
    if n < 10 then '0' + n as char else 'a' + (n - 10) as char
  }

  predicate IsDigit(c: char) {
    '0' <= c <= '9' || 'a' <= c <= 'f'
  }

  predicate AllDigits(h: string) {
    forall i :: 0 <= i < |h| ==> IsDigit(h[i])
  }

  function DigitValue(c: char): nat
    requires IsDigit(c)
  {
    if c <= '9' then c as int - '0' as int else c as int - 'a' as int + 10
  }

  function Pow16(w: nat): nat {
    if w == 0 then 1 else 16 * Pow16(w - 1)
  }

  /** The low `w` hexadecimal digits of `n`. */
  function Hex(n: nat, w: nat): (h: string)
    ensures |h| == w
  {
    if w == 0 then "" else Hex(n / 16, w - 1) + [Digit(n % 16)]
  }

  /** `%012x`: at least twelve digits, more when they are needed. */
  function HexAtLeast12(n: nat): (h: string)
    ensures |h| >= 12
  {
    if n < MS_LIMIT then Hex(n, 12) else HexAtLeast12(n / 16) + [Digit(n % 16)]
  }

  /** `strconv.ParseInt(h, 16, 64)` on hexadecimal digits. */
  function ParseHex(h: string): nat
    requires AllDigits(h)
  {
    if h == "" then 0 else ParseHex(h[..|h| - 1]) * 16 + DigitValue(h[|h| - 1])
  }

  function Dashless(s: string): string {
    if s == "" then "" else (if s[0] == '-' then "" else [s[0]]) + Dashless(s[1..])
  }

  lemma {:induction false} LexConcat(a: string, x: string, b: string, y: string)
    requires |a| == |b|
    ensures LexLess(a + x, b + y) <==> LexLess(a, b) || (a == b && LexLess(x, y))
    decreases |a|
  {
    if a == "" {
      assert a + x == x && b + y == y;
    } else {
      assert (a + x)[1..] == a[1..] + x && (b + y)[1..] == b[1..] + y;
      LexConcat(a[1..], x, b[1..], y);
      assert a == [a[0]] + a[1..] && b == [b[0]] + b[1..];
    }
  }

  lemma {:induction false} LexIrreflexive(a: string)
    ensures !LexLess(a, a)
  {
    if a != "" {
      LexIrreflexive(a[1..]);
    }
  }

  lemma DigitOrder(a: nat, b: nat)
    requires a < 16 && b < 16
    ensures LexLess([Digit(a)], [Digit(b)]) <==> a < b
    ensures Digit(a) == Digit(b) <==> a == b
  {
  }

  lemma SnocEqual(s: string, c: char, t: string, d: char)
    requires |s| == |t|
    ensures s + [c] == t + [d] <==> s == t && c == d
  {
    assert (s + [c])[..|s|] == s && (t + [d])[..|t|] == t;
    assert (s + [c])[|s|] == c && (t + [d])[|t|] == d;
  }

  /** Fixed-width hexadecimal is strictly monotone: string order is numeric order. */
  lemma {:induction false} HexOrder(a: nat, b: nat, w: nat)
    requires a < Pow16(w) && b < Pow16(w)
    ensures LexLess(Hex(a, w), Hex(b, w)) <==> a < b
    ensures Hex(a, w) == Hex(b, w) <==> a == b
  {
    if w > 0 {
      HexOrder(a / 16, b / 16, w - 1);
      var ha, hb := Hex(a / 16, w - 1), Hex(b / 16, w - 1);
      LexConcat(ha, [Digit(a % 16)], hb, [Digit(b % 16)]);
      DigitOrder(a % 16, b % 16);
      SnocEqual(ha, Digit(a % 16), hb, Digit(b % 16));
    }
  }

  lemma {:induction false} HexIsDigits(n: nat, w: nat)
    ensures AllDigits(Hex(n, w))
  {
    if w > 0 {
      HexIsDigits(n / 16, w - 1);
    }
  }

  lemma {:induction false} ParseHexInverts(n: nat, w: nat)
    requires n < Pow16(w)
    ensures AllDigits(Hex(n, w))
    ensures ParseHex(Hex(n, w)) == n
  {
    HexIsDigits(n, w);
    if w > 0 {
      ParseHexInverts(n / 16, w - 1);
      assert Hex(n, w)[..w - 1] == Hex(n / 16, w - 1);
    }
  }

  lemma Pow16Values()
    ensures Pow16(3) == PER_MS && Pow16(12) == MS_LIMIT && Pow16(16) == TAIL_LIMIT
  {
  }

  lemma {:induction false} DashlessConcat(s: string, t: string)
    ensures Dashless(s + t) == Dashless(s) + Dashless(t)
  {
    if s == "" {
      assert s + t == t;
    } else {
      assert (s + t)[1..] == s[1..] + t;
      DashlessConcat(s[1..], t);
    }
  }

  lemma {:induction false} DashlessDigits(h: string)
    requires AllDigits(h)
    ensures Dashless(h) == h
  {
    if h != "" {
      DashlessDigits(h[1..]);
    }
  }

  // ---------------------------------------------------------------------------
  // The printed id and the functions that read it
  // ---------------------------------------------------------------------------

  function TimePart(h: string): string
    requires |h| >= 8
  {
    h[..8] + "-" + h[8..]
  }

  /** xxxxxxxx-xxxx-7ccc-tttt-tttttttttttt */
  function Print(u: UsageId): string {
    TimePart(Hex(u.ms, 12)) + AfterTime(u.counter, TailPart(Hex(u.tail, 16)))
  }

  /** The version digit and the counter, then whatever follows. */
  function AfterTime(counter: nat, rest: string): string {
    "-7" + (Hex(counter, 3) + rest)
  }

  function TailPart(t: string): string
    requires |t| == 16
  {
    "-" + t[..4] + "-" + t[4..]
  }

  /** `cursorOf`: drop the dashes, read digits 0-11 and 13-15. */
  function CursorOf(s: string): int
    requires |Dashless(s)| >= 16 && AllDigits(Dashless(s)[..16])
  {
    var h := Dashless(s)[..16];
    (ParseHex(h[0..12]) - EPOCH_MS) * PER_MS + ParseHex(h[13..16])
  }

  /** `usageIDAtLeast`: the time and version-and-counter groups of the smallest id at a cursor. */
  function UsageIdAtLeast(cursor: nat): string {
    TimePart(HexAtLeast12(cursor / PER_MS + EPOCH_MS)) + AfterTime(cursor % PER_MS, "")
  }

  function BackFrom(ms: nat): string {
    TimePart(Hex(if ms < OVERLAP_MS then 0 else ms - OVERLAP_MS, 12)) + ("-" + OVERLAP_REST)
  }

  /** `withOverlap`: ten seconds before a stored id, or "0" when nothing is stored. */
  function WithOverlap(s: string): string
    requires s == "0" || (|s| >= 13 && AllDigits((s[..8] + s[9..])[..12]))
  {
    if s == "0" then s else BackFrom(ParseHex((s[..8] + s[9..])[..12]))
  }

  // ---------------------------------------------------------------------------
  // The codec is an order isomorphism
  // ---------------------------------------------------------------------------

  lemma DashNeutral(g: string, x: string, h: string, y: string)
    requires |g| == |h| >= 8
    ensures LexLess(TimePart(g) + x, TimePart(h) + y) <==> LexLess(g, h) || (g == h && LexLess(x, y))
  {
    assert TimePart(g) + x == g[..8] + ("-" + (g[8..] + x));
    assert TimePart(h) + y == h[..8] + ("-" + (h[8..] + y));
    LexConcat(g[..8], "-" + (g[8..] + x), h[..8], "-" + (h[8..] + y));
    LexConcat("-", g[8..] + x, "-", h[8..] + y);
    LexConcat(g[8..], x, h[8..], y);
    LexConcat(g[..8], g[8..], h[..8], h[8..]);
    assert g == g[..8] + g[8..] && h == h[..8] + h[8..];
    LexIrreflexive("-");
  }

  lemma TailOrder(s: string, t: string)
    requires |s| == |t| == 16
    ensures LexLess(TailPart(s), TailPart(t)) <==> LexLess(s, t)
  {
    assert TailPart(s) == "-" + (s[..4] + ("-" + s[4..])) && TailPart(t) == "-" + (t[..4] + ("-" + t[4..]));
    LexConcat("-", s[..4] + ("-" + s[4..]), "-", t[..4] + ("-" + t[4..]));
    LexConcat(s[..4], "-" + s[4..], t[..4], "-" + t[4..]);
    LexConcat("-", s[4..], "-", t[4..]);
    LexConcat(s[..4], s[4..], t[..4], t[4..]);
    assert s == s[..4] + s[4..] && t == t[..4] + t[4..];
    LexIrreflexive("-");
  }

  lemma CounterOrder(a: nat, x: string, b: nat, y: string)
    requires a < PER_MS && b < PER_MS
    ensures LexLess(AfterTime(a, x), AfterTime(b, y)) <==> a < b || (a == b && LexLess(x, y))
  {
    Pow16Values();
    LexConcat("-7", Hex(a, 3) + x, "-7", Hex(b, 3) + y);
    LexIrreflexive("-7");
    LexConcat(Hex(a, 3), x, Hex(b, 3), y);
    HexOrder(a, b, 3);
  }

  lemma PrintOrder(a: UsageId, b: UsageId)
    ensures LexLess(Print(a), Print(b)) <==> Less(a, b)
  {
    var x, y := TailPart(Hex(a.tail, 16)), TailPart(Hex(b.tail, 16));
    DashNeutral(Hex(a.ms, 12), AfterTime(a.counter, x), Hex(b.ms, 12), AfterTime(b.counter, y));
    Pow16Values();
    HexOrder(a.ms, b.ms, 12);
    CounterOrder(a.counter, x, b.counter, y);
    TailOrder(Hex(a.tail, 16), Hex(b.tail, 16));
    HexOrder(a.tail, b.tail, 16);
  }

  /** Sorting printed ids sorts by time, then counter, then the rest; printing loses nothing. */
  lemma StringOrderIsIdOrder(a: UsageId, b: UsageId)
    ensures LexLess(Print(a), Print(b)) <==> Less(a, b)
    ensures Print(a) == Print(b) ==> a == b
    ensures LexLess(Print(a), Print(b)) ==> Cursor(a) <= Cursor(b)
    ensures Cursor(a) < Cursor(b) ==> LexLess(Print(a), Print(b))
  {
    PrintOrder(a, b);
    PrintOrder(b, a);
    LessIsTotal(a, b);
    LexIrreflexive(Print(a));
  }

  lemma DashlessPart(h: string, x: string)
    requires AllDigits(h)
    ensures Dashless(h + x) == h + Dashless(x)
    ensures Dashless("-" + x) == Dashless(x)
  {
    DashlessConcat(h, x);
    DashlessDigits(h);
    assert ("-" + x)[1..] == x;
  }

  lemma TimePartSplit(g: string, x: string)
    requires |g| >= 8
    ensures TimePart(g) + x == g[..8] + ("-" + (g[8..] + x))
  {
  }

  lemma DashlessTime(g: string, x: string)
    requires |g| == 12 && AllDigits(g)
    ensures Dashless(TimePart(g) + x) == g + Dashless(x)
  {
    var a, b := g[..8], g[8..];
    TimePartSplit(g, x);
    DashlessPart(a, "-" + (b + x));
    DashlessPart("", b + x);
    DashlessPart(b, x);
    var d := Dashless(x);
    calc {
      Dashless(TimePart(g) + x);
      a + (b + d);
      { assert a + (b + d) == (a + b) + d; }
      (a + b) + d;
      { assert a + b == g; }
      g + d;
    }
  }

  lemma DashlessHead(g: string, c: string, rest: string)
    requires |g| == 12 && AllDigits(g) && AllDigits(c)
    ensures Dashless(TimePart(g) + ("-7" + (c + rest))) == g + ("7" + c) + Dashless(rest)
  {
    DashlessTime(g, "-7" + (c + rest));
    assert "-7" + (c + rest) == "-" + (("7" + c) + rest);
    DashlessPart("7" + c, rest);
    DashlessPart("", ("7" + c) + rest);
  }

  /** `cursorOf` recovers time and counter from the printed id: the milliseconds since 2026, which
      began 20454 days after 1970, times 4096, plus the counter. For any time within 2^41 ms
      of the epoch the result survives a trip through a 64-bit float (below 2^53). */
  lemma CursorRoundTrip(u: UsageId)
    ensures |Dashless(Print(u))| >= 16 && AllDigits(Dashless(Print(u))[..16])
    ensures CursorOf(Print(u)) == Cursor(u) == (u.ms - 20454 * 86400000) * 4096 + u.counter
    ensures EPOCH_MS <= u.ms < EPOCH_MS + 0x200_0000_0000 ==> 0 <= CursorOf(Print(u)) < 0x20_0000_0000_0000
  {
    Pow16Values();
    var g, c := Hex(u.ms, 12), Hex(u.counter, 3);
    ParseHexInverts(u.ms, 12);
    ParseHexInverts(u.counter, 3);
    DashlessHead(g, c, TailPart(Hex(u.tail, 16)));
    var h := Dashless(Print(u))[..16];
    assert h == g + ("7" + c);
    assert h[0..12] == g && h[13..16] == c;
  }

  lemma AtLeastOrder(u: UsageId, cursor: nat)
    requires cursor / PER_MS + EPOCH_MS < MS_LIMIT
    ensures var ms, counter := cursor / PER_MS + EPOCH_MS, cursor % PER_MS;
            LexLess(Print(u), UsageIdAtLeast(cursor)) <==> u.ms < ms || (u.ms == ms && u.counter < counter)
  {
    var ms, counter := cursor / PER_MS + EPOCH_MS, cursor % PER_MS;
    var x := TailPart(Hex(u.tail, 16));
    DashNeutral(Hex(u.ms, 12), AfterTime(u.counter, x), Hex(ms, 12), AfterTime(counter, ""));
    Pow16Values();
    HexOrder(u.ms, ms, 12);
    CounterOrder(u.counter, x, counter, "");
  }

  lemma AtLeastInRange(u: UsageId, cursor: nat)
    requires cursor / PER_MS + EPOCH_MS < MS_LIMIT
    ensures !LexLess(Print(u), UsageIdAtLeast(cursor)) <==> Cursor(u) >= cursor
  {
    AtLeastOrder(u, cursor);
  }

  lemma ThirteenDigits(cursor: nat)
    requires MS_LIMIT <= cursor / PER_MS + EPOCH_MS < 15 * MS_LIMIT
    ensures var ms := cursor / PER_MS + EPOCH_MS;
            UsageIdAtLeast(cursor) ==
              TimePart(Hex(ms / 16, 12)) + ([Digit(ms % 16)] + AfterTime(cursor % PER_MS, ""))
  {
    var ms := cursor / PER_MS + EPOCH_MS;
    assert HexAtLeast12(ms) == Hex(ms / 16, 12) + [Digit(ms % 16)];
  }

  /** The last 48-bit millisecond passes every filter built from a thirteen-digit time. */
  lemma AtLeastOutOfRange(cursor: nat)
    requires MS_LIMIT <= cursor / PER_MS + EPOCH_MS < 15 * MS_LIMIT
    ensures var u := Uuid7(MS_LIMIT - 1, 0, 0); Cursor(u) < cursor && !LexLess(Print(u), UsageIdAtLeast(cursor))
  {
    var ms := cursor / PER_MS + EPOCH_MS;
    var u := Uuid7(MS_LIMIT - 1, 0, 0);
    var f, g := Hex(u.ms, 12), Hex(ms / 16, 12);
    ThirteenDigits(cursor);
    DashNeutral(f, AfterTime(0, TailPart(Hex(u.tail, 16))), g, [Digit(ms % 16)] + AfterTime(cursor % PER_MS, ""));
    Pow16Values();
    HexOrder(u.ms, ms / 16, 12);
  }

  /** For any cursor a signed 64-bit `since` can hold, the string filter `usage_id >= bound`
      selects exactly the ids at or above the cursor if and only if the cursor's time fits
      48 bits. */
  lemma AtLeastIsExact(cursor: nat)
    requires cursor < 0x8000_0000_0000_0000
    ensures (forall u: UsageId :: !LexLess(Print(u), UsageIdAtLeast(cursor)) <==> Cursor(u) >= cursor)
       <==> cursor / PER_MS + EPOCH_MS < MS_LIMIT
  {
    if cursor / PER_MS + EPOCH_MS < MS_LIMIT {
      forall u: UsageId
        ensures !LexLess(Print(u), UsageIdAtLeast(cursor)) <==> Cursor(u) >= cursor
      {
        AtLeastInRange(u, cursor);
      }
    } else {
      AtLeastOutOfRange(cursor);
      var u: UsageId := Uuid7(MS_LIMIT - 1, 0, 0);
      assert !LexLess(Print(u), UsageIdAtLeast(cursor)) && !(Cursor(u) >= cursor);
    }
  }

  lemma FirstDashDropped(g: string, x: string)
    requires |g| == 12
    ensures var s := TimePart(g) + x; (s[..8] + s[9..])[..12] == g
  {
  }

  lemma PrintedTime(u: UsageId)
    ensures var s := Print(u); |s| >= 13 && (s[..8] + s[9..])[..12] == Hex(u.ms, 12)
  {
    FirstDashDropped(Hex(u.ms, 12), AfterTime(u.counter, TailPart(Hex(u.tail, 16))));
  }

  lemma OverlapText(newest: UsageId)
    ensures var s := Print(newest); |s| >= 13 && AllDigits((s[..8] + s[9..])[..12])
    ensures WithOverlap(Print(newest)) == BackFrom(newest.ms)
  {
    PrintedTime(newest);
    ParseTime(newest);
  }

  lemma ParseTime(u: UsageId)
    ensures AllDigits(Hex(u.ms, 12)) && ParseHex(Hex(u.ms, 12)) == u.ms
  {
    Pow16Values();
    ParseHexInverts(u.ms, 12);
  }

  lemma TimeOnlyOrder(ms: nat, x: string, u: UsageId)
    requires ms < MS_LIMIT && x != "" && x[0] == '0'
    ensures LexLess(TimePart(Hex(ms, 12)) + ("-" + x), Print(u)) <==> ms <= u.ms
  {
    var y := "7" + (Hex(u.counter, 3) + TailPart(Hex(u.tail, 16)));
    assert AfterTime(u.counter, TailPart(Hex(u.tail, 16))) == "-" + y;
    DashNeutral(Hex(ms, 12), "-" + x, Hex(u.ms, 12), "-" + y);
    Pow16Values();
    HexOrder(ms, u.ms, 12);
    VersionsDiffer(x, y);
  }

  /** Polling after `withOverlap(newest)` asks for exactly the ids from ten seconds before the
      newest stored one on. */
  lemma OverlapReachesBack(newest: UsageId, u: UsageId)
    ensures var s := Print(newest); |s| >= 13 && AllDigits((s[..8] + s[9..])[..12])
    ensures LexLess(WithOverlap(Print(newest)), Print(u)) <==> u.ms + 10000 >= newest.ms
  {
    OverlapText(newest);
    TimeOnlyOrder(if newest.ms < OVERLAP_MS then 0 else newest.ms - OVERLAP_MS, OVERLAP_REST, u);
  }

  lemma VersionsDiffer(x: string, y: string)
    requires x != "" && y != "" && x[0] == '0' && y[0] == '7'
    ensures LexLess("-" + x, "-" + y)
  {
  }

  /** A machine with nothing stored is polled from its first row. */
  lemma ZeroIsFirst(u: UsageId)
    ensures WithOverlap("0") == "0" && LexLess("0", Print(u))
  {
    var s := Print(u);
    var h := Hex(u.ms, 12);
    assert s == [h[0]] + s[1..] && |s| > 1;
    HexIsDigits(u.ms, 12);
    assert IsDigit(h[0]);
    assert s[1..] != "";
  }
}
