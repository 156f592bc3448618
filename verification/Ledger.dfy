/** The usage ledger of one proxy machine: its id generator, its floor and its rows. */
module Ledger {
  import opened Wrappers
  import opened UsageIds
  import opened Rows

  /** `lastMs` and `seq` of the ledger. */
  datatype Clock = Clock(lastMs: int, seq12: int) {
    predicate Ok() {
      -1 <= seq12 <= 0xfff
    }

    /** The lowest stamp any later id of this process can have. */
    function Next(): int {
      lastMs * PER_MS + seq12 + 1
    }
  }

  const BOOT := Clock(0, 0)

  /** The clock after `uuidv7(now)`; the new id carries its `lastMs` and `seq`. */
  function Tick(c: Clock, now: int): Clock {
    if now <= c.lastMs then
      if c.seq12 + 1 > 0xfff then Clock(c.lastMs + 1, 0) else Clock(c.lastMs, c.seq12 + 1)
    else
      Clock(now, 0)
  }

  function IdStamp(c: Clock): int {
    c.lastMs * PER_MS + c.seq12
  }

  /** The clock after `usageFloor(now)` and the (ms, counter) it answers. */
  function FloorClock(c: Clock, now: int): Clock {
    if now > c.lastMs then Clock(now, -1) else c
  }

  function FloorOf(c: Clock, now: int): (int, int) {
    if now > c.lastMs then (now, 0)
    else if c.seq12 < 0xfff then (c.lastMs, c.seq12 + 1)
    else (c.lastMs + 1, 0)
  }

  function FloorStamp(c: Clock, now: int): int {
    FloorOf(c, now).0 * PER_MS + FloorOf(c, now).1
  }

  /** The two-field generator is a one-number clock: an id takes the larger of `Next` and the
      time passed in, and the floor is that number without taking it. */
  lemma TickIsOneNumber(c: Clock, now: int)
    requires c.Ok()
    ensures Tick(c, now).Ok() && Tick(c, now).seq12 >= 0
    ensures IdStamp(Tick(c, now)) == Max(c.Next(), now * PER_MS)
    ensures Tick(c, now).Next() == IdStamp(Tick(c, now)) + 1
  {
  }

  lemma FloorIsOneNumber(c: Clock, now: int)
    requires c.Ok()
    ensures FloorClock(c, now).Ok() && 0 <= FloorOf(c, now).1 <= 0xfff
    ensures FloorStamp(c, now) == Max(c.Next(), now * PER_MS) == FloorClock(c, now).Next()
  {
  }

  // ---------------------------------------------------------------------------
  // Whole runs, for arbitrary clock readings
  // ---------------------------------------------------------------------------

  datatype Call = MakeId(now: int) | AskFloor(now: int)

  function After(c: Clock, call: Call): Clock {
    match call
    case MakeId(now) => Tick(c, now)
    case AskFloor(now) => FloorClock(c, now)
  }

  /** The stamp a call answers: its id's or its floor's. */
  function Answer(c: Clock, call: Call): int {
    match call
    case MakeId(now) => IdStamp(Tick(c, now))
    case AskFloor(now) => FloorStamp(c, now)
  }

  function RunClock(c: Clock, calls: seq<Call>): Clock
    decreases |calls|
  {
    if calls == [] then c else RunClock(After(c, calls[0]), calls[1..])
  }

  function Answers(c: Clock, calls: seq<Call>): (a: seq<int>)
    ensures |a| == |calls|
    decreases |calls|
  {
    if calls == [] then [] else [Answer(c, calls[0])] + Answers(After(c, calls[0]), calls[1..])
  }

  lemma {:induction false} AnswersStartAtNext(c: Clock, calls: seq<Call>, j: nat)
    requires c.Ok() && j < |calls|
    ensures RunClock(c, calls).Ok()
    ensures Answers(c, calls)[j] >= c.Next()
    ensures Answers(c, calls)[j] >= calls[j].now * PER_MS
    decreases |calls|
  {
    var c' := After(c, calls[0]);
    TickIsOneNumber(c, calls[0].now);
    FloorIsOneNumber(c, calls[0].now);
    if |calls| > 1 {
      AnswersStartAtNext(c', calls[1..], if j > 0 then j - 1 else 0);
    }
  }

  /** Any mix of id and floor calls with any clock readings, clocks stepping back included:
      the counter stays in range, ids strictly increase, a floor is strictly above every earlier
      id, at most every later id, never below an earlier floor, and at least the time passed in. */
  lemma {:induction false} RunIsMonotone(c: Clock, calls: seq<Call>, i: nat, j: nat)
    requires c.Ok() && i < j < |calls|
    ensures var a := Answers(c, calls);
            && RunClock(c, calls).Ok()
            && (calls[i].MakeId? ==> a[i] < a[j])
            && (calls[i].AskFloor? ==> a[i] <= a[j])
            && a[j] >= calls[j].now * PER_MS
    decreases i
  {
    AnswersStartAtNext(c, calls, j);
    var c' := After(c, calls[0]);
    TickIsOneNumber(c, calls[0].now);
    FloorIsOneNumber(c, calls[0].now);
    if i == 0 {
      AnswersStartAtNext(c', calls[1..], j - 1);
    } else {
      RunIsMonotone(c', calls[1..], i - 1, j - 1);
    }
  }

  /** No larger floor would do: a clock that reads low next makes an id exactly at the floor. */
  lemma FloorIsTight(c: Clock, now: int, later: int)
    requires c.Ok() && later * PER_MS <= FloorStamp(c, now)
    ensures IdStamp(Tick(FloorClock(c, now), later)) == FloorStamp(c, now)
  {
  }

  // ---------------------------------------------------------------------------
  // Bytes of an id
  // ---------------------------------------------------------------------------

  type Byte = b: nat | b < 256

  function ValueOf(b: seq<Byte>): nat {
    if b == [] then 0 else ValueOf(b[..|b| - 1]) * 256 + b[|b| - 1]
  }

  function Pow256(n: nat): nat {
    if n == 0 then 1 else 256 * Pow256(n - 1)
  }

  /** `hex.EncodeToString`. */
  function HexOfBytes(b: seq<Byte>): (h: string)
    ensures |h| == 2 * |b|
  {
    if b == [] then "" else HexOfBytes(b[..|b| - 1]) + [Digit(b[|b| - 1] / 16), Digit(b[|b| - 1] % 16)]
  }

  lemma HexOfByte(v: nat, x: Byte, w: nat)
    ensures Hex(v * 256 + x, w + 2) == Hex(v, w) + [Digit(x / 16), Digit(x % 16)]
  {
    var n := v * 256 + x;
    assert n / 16 == v * 16 + x / 16 && n % 16 == x % 16;
    assert n / 16 / 16 == v && n / 16 % 16 == x / 16;
    assert Hex(n, w + 2) == Hex(n / 16, w + 1) + [Digit(n % 16)];
    assert Hex(n / 16, w + 1) == Hex(v, w) + [Digit(x / 16)];
  }

  lemma {:induction false} HexOfBytesIsHex(b: seq<Byte>)
    ensures HexOfBytes(b) == Hex(ValueOf(b), 2 * |b|)
  {
    if b != [] {
      HexOfBytesIsHex(b[..|b| - 1]);
      HexOfByte(ValueOf(b[..|b| - 1]), b[|b| - 1], 2 * |b| - 2);
    }
  }

  lemma {:induction false} HexOfBytesConcat(a: seq<Byte>, b: seq<Byte>)
    ensures HexOfBytes(a + b) == HexOfBytes(a) + HexOfBytes(b)
  {
    if b == [] {
      assert a + b == a;
    } else {
      assert (a + b)[..|a + b| - 1] == a + b[..|b| - 1];
      HexOfBytesConcat(a, b[..|b| - 1]);
    }
  }

  lemma {:induction false} ValueOfBound(b: seq<Byte>)
    ensures ValueOf(b) < Pow256(|b|)
  {
    if b != [] {
      ValueOfBound(b[..|b| - 1]);
    }
  }

  lemma {:induction false} ValueOfPrepend(x: Byte, b: seq<Byte>)
    ensures ValueOf([x] + b) == x * Pow256(|b|) + ValueOf(b)
  {
    if b == [] {
      assert [x] + b == [x];
      assert ValueOf([x]) == ValueOf([x][..0]) * 256 + x;
    } else {
      var front := b[..|b| - 1];
      assert ([x] + b)[..|b|] == [x] + front;
      ValueOfPrepend(x, front);
      assert x * (256 * Pow256(|front|)) == 256 * (x * Pow256(|front|));
    }
  }

  /** The 64 bits after the counter: random, with the two variant bits set to 10. */
  function TailOf(random: seq<Byte>): nat
    requires |random| == 16
  {
    ValueOf([0x80 + random[8] % 0x40] + random[9..])
  }

  lemma TailFits(random: seq<Byte>)
    requires |random| == 16
    ensures 0x8000_0000_0000_0000 <= TailOf(random) < 0xC000_0000_0000_0000 < TAIL_LIMIT
  {
    ValueOfBound(random[9..]);
    ValueOfPrepend(0x80 + random[8] % 0x40, random[9..]);
    assert Pow256(4) == 0x1_0000_0000 && Pow256(7) == 0x100_0000_0000_0000;
  }

  lemma CounterBytes(seq12: nat)
    requires seq12 < PER_MS
    ensures HexOfBytes([0x70 + seq12 / 256, seq12 % 256]) == "7" + Hex(seq12, 3)
  {
    var hi: Byte, lo: Byte := 0x70 + seq12 / 256, seq12 % 256;
    TwoBytes(hi, lo);
    var v := seq12 / 256;
    assert v < 16 && seq12 == v * 256 + lo && hi / 16 == 7 && hi % 16 == v;
    HexOfByte(v, lo, 1);
    OneDigit(v);
  }

  lemma OneDigit(v: nat)
    requires v < 16
    ensures Hex(v, 1) == [Digit(v)]
  {
    assert Hex(v / 16, 0) == "";
  }

  lemma TwoBytes(hi: Byte, lo: Byte)
    ensures HexOfBytes([hi, lo]) == [Digit(hi / 16), Digit(hi % 16), Digit(lo / 16), Digit(lo % 16)]
  {
  }

  /** The bytes of an id: time, version and counter, variant and random. */
  function IdBytes(time: seq<Byte>, seq12: nat, random: seq<Byte>): seq<Byte>
    requires seq12 < PER_MS && |random| == 16
  {
    time + ([0x70 + seq12 / 256, seq12 % 256] + ([0x80 + random[8] % 0x40] + random[9..]))
  }

  lemma IdBytesPrint(time: seq<Byte>, seq12: nat, random: seq<Byte>)
    requires |time| == 6 && seq12 < PER_MS && |random| == 16
    ensures HexOfBytes(IdBytes(time, seq12, random))
         == Hex(ValueOf(time), 12) + ("7" + Hex(seq12, 3) + Hex(TailOf(random), 16))
  {
    var counter: seq<Byte> := [0x70 + seq12 / 256, seq12 % 256];
    var tail: seq<Byte> := [0x80 + random[8] % 0x40] + random[9..];
    HexOfBytesConcat(time, counter + tail);
    HexOfBytesConcat(counter, tail);
    CounterBytes(seq12);
    HexOfBytesIsHex(time);
    HexOfBytesIsHex(tail);
  }

  /** Fills the eight high bytes of an id in place. */
  method FillBytes(b: array<Byte>, ms: nat, seq12: nat)
    requires b.Length == 16 && ms < MS_LIMIT && seq12 < PER_MS
    modifies b
    ensures ValueOf(b[0..6]) == ms && b[..] == IdBytes(b[0..6], seq12, old(b[..]))
    ensures b[6] / 16 == 7 && (b[6] as int % 16) * 256 + b[7] == seq12
    ensures b[8] / 64 == 2 && b[8] % 64 == old(b[8]) % 64 && b[9..] == old(b[9..])
  {
    var ts := ms;
    var i := 5;
    assert b[6..6] == [];
    while i >= 0
      invariant -1 <= i <= 5 && ts >= 0
      invariant ms == ts * Pow256(5 - i) + ValueOf(b[i + 1..6])
      invariant forall k :: 6 <= k < 16 ==> b[k] == old(b[k])
    {
      ghost var low := b[i + 1..6];
      b[i] := ts % 256;
      assert b[i..6] == [b[i]] + low;
      ValueOfPrepend(b[i], low);
      ShiftByte(ts, Pow256(5 - i));
      ts := ts / 256;
      i := i - 1;
    }
    TopByteIsZero(ms, ts, ValueOf(b[0..6]));
    b[6] := 0x70 + seq12 / 256;
    b[7] := seq12 % 256;
    b[8] := b[8] % 0x40 + 0x80;
    assert b[9..] == old(b[..])[9..];
  }

  lemma ShiftByte(ts: nat, p: nat)
    ensures ts * p == ts / 256 * (256 * p) + ts % 256 * p
  {
  }

  lemma TopByteIsZero(ms: nat, ts: nat, low: nat)
    requires ms < MS_LIMIT && ms == ts * Pow256(6) + low
    ensures ms == low
  {
  }

  /** Fills the sixteen bytes of an id and prints them. */
  method FormatId(ms: nat, seq12: nat, random: seq<Byte>) returns (id: string)
    requires ms < MS_LIMIT && seq12 < PER_MS && |random| == 16
    ensures 0x8000_0000_0000_0000 <= TailOf(random) < 0xC000_0000_0000_0000
    ensures id == Print(Uuid7(ms, seq12, TailOf(random)))
  {
    var b := new Byte[16](i requires 0 <= i < 16 => random[i]);
    assert b[..] == random;
    FillBytes(b, ms, seq12);
    var h := HexOfBytes(b[..]);
    id := h[0..8] + "-" + h[8..12] + "-" + h[12..16] + "-" + h[16..20] + "-" + h[20..];
    IdBytesPrint(b[0..6], seq12, random);
    TailFits(random);
    PrintShape(h, ms, seq12, TailOf(random));
  }

  lemma Slices(g: string, c: string, t: string)
    requires |g| == 12 && |c| == 3 && |t| == 16
    ensures var h := g + ("7" + c + t);
            && h[0..8] == g[..8] && h[8..12] == g[8..] && h[12..16] == "7" + c
            && h[16..20] == t[..4] && h[20..] == t[4..]
  {
  }

  lemma Dashed(a: string, b: string, c: string, d: string, e: string)
    ensures a + "-" + b + ("-7" + (c + ("-" + d + "-" + e))) == a + "-" + b + "-" + ("7" + c) + "-" + d + "-" + e
  {
  }

  lemma PrintShape(h: string, ms: nat, counter: nat, tail: nat)
    requires Uuid7(ms, counter, tail).Fits()
    requires h == Hex(ms, 12) + ("7" + Hex(counter, 3) + Hex(tail, 16))
    ensures Print(Uuid7(ms, counter, tail))
         == h[0..8] + "-" + h[8..12] + "-" + h[12..16] + "-" + h[16..20] + "-" + h[20..]
  {
    var g, c, t := Hex(ms, 12), Hex(counter, 3), Hex(tail, 16);
    Slices(g, c, t);
    Dashed(g[..8], g[8..], c, t[..4], t[4..]);
  }

  // ---------------------------------------------------------------------------
  // The ledger object
  // ---------------------------------------------------------------------------

  /** Rows are in the order they were written, and every later id is above them all. */
  ghost predicate TableOk(rows: seq<UsageRow>, c: Clock) {
    && c.Ok()
    && (forall i, j :: 0 <= i < j < |rows| ==> Stamp(rows[i].usageId) < Stamp(rows[j].usageId))
    && (forall i :: 0 <= i < |rows| ==> Stamp(rows[i].usageId) < c.Next())
  }

  class UsageLedger {
    const machineId: string
    var lastMs: int
    var seq12: int
    var rows: seq<UsageRow>

    ghost function State(): Clock
      reads this
    {
      Clock(lastMs, seq12)
    }

    ghost predicate Valid()
      reads this
    {
      0 <= lastMs && TableOk(rows, State())
    }

    constructor (machineId: string)
      ensures Valid() && State() == BOOT && rows == [] && this.machineId == machineId
    {
      this.machineId := machineId;
      lastMs, seq12 := 0, 0;
      rows := [];
    }

    /** Makes the next id. The caller holds the id lock. */
    method Uuidv7(now: int, random: seq<Byte>) returns (id: string)
      requires Valid() && |random| == 16 && now < MS_LIMIT && lastMs + 1 < MS_LIMIT
      modifies this`lastMs, this`seq12
      ensures Valid() && State() == Tick(old(State()), now)
      ensures lastMs < MS_LIMIT && 0 <= seq12 < PER_MS && TailOf(random) < TAIL_LIMIT
      ensures id == Print(Uuid7(lastMs, seq12, TailOf(random)))
    {
      TickIsOneNumber(State(), now);
      var ms := now;
      if ms <= lastMs {
        ms := lastMs;
        seq12 := seq12 + 1;
        if seq12 > 0xfff {
          ms := ms + 1;
          seq12 := 0;
        }
      } else {
        seq12 := 0;
      }
      lastMs := ms;
      id := FormatId(ms, seq12, random);
    }

    /** The lowest (ms, counter) any later id can have; every row below it is already in `rows`,
        and stepping the clock back later cannot go under it. */
    method UsageFloor(now: int) returns (ms: int, counter: int)
      requires Valid()
      modifies this`lastMs, this`seq12
      ensures Valid() && State() == FloorClock(old(State()), now)
      ensures (ms, counter) == FloorOf(old(State()), now)
      ensures State().Next() == ms * PER_MS + counter
    {
      FloorIsOneNumber(State(), now);
      if now > lastMs {
        lastMs := now;
        seq12 := -1;
        return now, 0;
      }
      if seq12 < 0xfff {
        return lastMs, seq12 + 1;
      }
      return lastMs + 1, 0;
    }

    /** Makes an id and inserts the row under one lock; `stored` says whether the insert
        succeeded (a failed insert still uses up the id). */
    method RecordUsage(r: UsageRow, now: int, random: seq<Byte>, stored: bool) returns (id: string)
      requires Valid() && |random| == 16 && now < MS_LIMIT && lastMs + 1 < MS_LIMIT
      modifies this
      ensures Valid() && State() == Tick(old(State()), now)
      ensures 0 <= lastMs < MS_LIMIT && 0 <= seq12 < PER_MS && TailOf(random) < TAIL_LIMIT
      ensures var u: UsageId := Uuid7(lastMs, seq12, TailOf(random));
              && id == Print(u)
              && Stamp(u) >= old(State().Next())
              && rows == if stored
                         then old(rows) + [r.(id := |old(rows)| + 1, usageId := u, machineId := machineId)]
                         else old(rows)
    {
      TickIsOneNumber(State(), now);
      id := Uuidv7(now, random);
      var u: UsageId := Uuid7(lastMs, seq12, TailOf(random));
      if stored {
        rows := rows + [r.(id := |rows| + 1, usageId := u, machineId := machineId)];
      }
    }
  }
}
